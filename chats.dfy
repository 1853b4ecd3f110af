/**
 * The conversation store (`Chat`, `ChatManager`, `new_chat_obj`) and the
 * chat endpoints that act on it: create, get, delete and rename. A chat is
 * a name and a list of conversation blocks; a block holds the variants of
 * one user message, the model's responses to them (`None` while a response
 * is pending) and the index of the variant on show.
 */
module Chats {
  import opened Wrappers
  import opened Strings
  import opened Retry

  datatype Block = Block(userVariants: seq<string>, aiResponses: seq<Option<string>>, selected: int)

  datatype ChatData = ChatData(name: string, blocks: seq<Block>)

  const DefaultChatName: string := "Novo Chat"

  /** `new_chat_obj()`: the default name and no blocks. */
  function NewChat(): (c: ChatData)
    ensures c.name == DefaultChatName && c.blocks == []
  {
    ChatData(DefaultChatName, [])
  }

  /** The block `send_message` and `Chat.add_message` append for one message. */
  function SingleBlock(userText: string, reply: Option<string>): (b: Block)
    ensures b.userVariants == [userText] && b.aiResponses == [reply] && b.selected == 0
  {
    Block([userText], [reply], 0)
  }

  /** The chat with one more block at the end, for `userText` answered by `reply`. */
  function WithBlock(c: ChatData, userText: string, reply: Option<string>): (r: ChatData)
    ensures r.name == c.name && |r.blocks| == |c.blocks| + 1
    ensures r.blocks[..|c.blocks|] == c.blocks && r.blocks[|c.blocks|] == SingleBlock(userText, reply)
  {
    c.(blocks := c.blocks + [SingleBlock(userText, reply)])
  }

  /** `Chat.add_message(user_text, ai_text)`. */
  function AddMessage(c: ChatData, userText: string, aiText: string): (r: ChatData)
    ensures r == WithBlock(c, userText, Some(aiText))
  {
    c.(blocks := c.blocks + [Block([userText], [Some(aiText)], 0)])
  }

  /** `blocks[-1]['ai_responses'][0] = text`: overwrites the first response of the last block. */
  function SetLastReply(c: ChatData, text: string): (r: ChatData)
    requires c.blocks != [] && c.blocks[|c.blocks| - 1].aiResponses != []
    ensures r.name == c.name && |r.blocks| == |c.blocks| && r.blocks[..|c.blocks| - 1] == c.blocks[..|c.blocks| - 1]
    ensures var last := c.blocks[|c.blocks| - 1];
      r.blocks[|c.blocks| - 1] == last.(aiResponses := last.aiResponses[0 := Some(text)])
  {
    var last := c.blocks[|c.blocks| - 1];
    c.(blocks := c.blocks[..|c.blocks| - 1] + [last.(aiResponses := last.aiResponses[0 := Some(text)])])
  }

  /** Answering the pending block gives the block that would have been appended with the answer in it. */
  lemma AnswerPending(c: ChatData, userText: string, text: string)
    ensures SetLastReply(WithBlock(c, userText, None), text) == WithBlock(c, userText, Some(text))
  {
    var p := WithBlock(c, userText, None);
    assert p.blocks[..|p.blocks| - 1] == c.blocks;
    var last := p.blocks[|p.blocks| - 1];
    assert last == SingleBlock(userText, None);
    assert last.(aiResponses := last.aiResponses[0 := Some(text)]) == SingleBlock(userText, Some(text));
  }

  // ----- Python indexing and the conversation history -----

  /** `s[i]` in Python: negative indices count from the end; `None` where it raises `IndexError`. */
  function PyIndex<T>(s: seq<T>, i: int): (r: Option<T>)
    ensures r.Some? <==> -|s| <= i < |s|
    ensures r.Some? && i >= 0 ==> r.value == s[i]
    ensures r.Some? && i < 0 ==> r.value == s[|s| + i]
  {
    if 0 <= i < |s| then Some(s[i]) else if -|s| <= i < 0 then Some(s[|s| + i]) else None
  }

  datatype Role = User | Assistant

  /** A chat message as sent to the model; a pending response has no content. */
  datatype Message = Message(role: Role, content: Option<string>)

  /** The user text and the response shown for a block, when `selected` indexes both lists. */
  predicate SelectionValid(b: Block) {
    PyIndex(b.userVariants, b.selected).Some? && PyIndex(b.aiResponses, b.selected).Some?
  }

  /**
   * The history `send_message` sends when the setting asks for it: for each
   * block, its selected user variant and its selected response; `None` when
   * a block's `selected` is out of range, where the handler raises.
   */
  function History(blocks: seq<Block>): (r: Option<seq<Message>>)
    ensures r.Some? ==> |r.value| == 2 * |blocks|
  {
    if blocks == [] then Some([])
    else
      var b := blocks[0];
      match (PyIndex(b.userVariants, b.selected), PyIndex(b.aiResponses, b.selected), History(blocks[1..]))
      case (Some(u), Some(a), Some(rest)) => Some([Message(User, Some(u)), Message(Assistant, a)] + rest)
      case _ => None
  }

  /** The history is there exactly when every block's selection is valid. */
  lemma {:induction false} HistoryDefined(blocks: seq<Block>)
    ensures History(blocks).Some? <==> forall k :: 0 <= k < |blocks| ==> SelectionValid(blocks[k])
  {
    if blocks != [] {
      HistoryDefined(blocks[1..]);
      assert forall k :: 1 <= k < |blocks| ==> blocks[k] == blocks[1..][k - 1];
      if forall k :: 0 <= k < |blocks| ==> SelectionValid(blocks[k]) {
        assert SelectionValid(blocks[0]);
        assert forall k :: 0 <= k < |blocks[1..]| ==> SelectionValid(blocks[1..][k]) by {
          forall k | 0 <= k < |blocks[1..]| ensures SelectionValid(blocks[1..][k]) {
            assert blocks[1..][k] == blocks[k + 1];
          }
        }
      }
    }
  }

  /** Block `k` gives the messages at `2 * k` and `2 * k + 1`: its selected variant and its selected response. */
  lemma {:induction false} HistoryContent(blocks: seq<Block>)
    requires History(blocks).Some?
    ensures forall k :: 0 <= k < |blocks| ==>
      SelectionValid(blocks[k])
      && History(blocks).value[2 * k] == Message(User, PyIndex(blocks[k].userVariants, blocks[k].selected))
      && History(blocks).value[2 * k + 1] == Message(Assistant, PyIndex(blocks[k].aiResponses, blocks[k].selected).value)
  {
    if blocks != [] {
      var b := blocks[0];
      var u, a, rest := PyIndex(b.userVariants, b.selected), PyIndex(b.aiResponses, b.selected), History(blocks[1..]);
      assert u.Some? && a.Some? && rest.Some?;
      HistoryContent(blocks[1..]);
      var h := History(blocks).value;
      assert h == [Message(User, u), Message(Assistant, a.value)] + rest.value;
      forall k | 1 <= k < |blocks|
        ensures h[2 * k] == rest.value[2 * (k - 1)] && h[2 * k + 1] == rest.value[2 * (k - 1) + 1]
        ensures blocks[k] == blocks[1..][k - 1]
      {
      }
    }
  }

  /**
   * The history is there exactly when every block's selection is valid, and
   * then the messages for block `k` are its selected variant and response.
   */
  lemma HistorySpec(blocks: seq<Block>)
    ensures History(blocks).Some? <==> forall k :: 0 <= k < |blocks| ==> SelectionValid(blocks[k])
    ensures History(blocks).Some? ==> forall k :: 0 <= k < |blocks| ==>
      History(blocks).value[2 * k] == Message(User, PyIndex(blocks[k].userVariants, blocks[k].selected))
      && History(blocks).value[2 * k + 1] == Message(Assistant, PyIndex(blocks[k].aiResponses, blocks[k].selected).value)
  {
    HistoryDefined(blocks);
    if History(blocks).Some? {
      HistoryContent(blocks);
    }
  }

  // ----- the conversation name -----

  const NameFallbackLength: nat := 30

  /**
   * `gerar_nome_conversa_primeira_mensagem(msg)`: the model's suggestion,
   * stripped; when the call fails, the first 30 characters of the message.
   */
  function SuggestedName(msg: string, reply: Attempt): (r: string)
    ensures reply.Failed? ==> r == Take(msg, NameFallbackLength) && |r| <= NameFallbackLength
    ensures reply.Reply? ==> |r| <= |reply.content|
    ensures reply.Reply? ==> r == Strip(reply.content)
  {
    match reply
    case Reply(content) => Strip(content)
    case Failed => Take(msg, NameFallbackLength)
  }

  // ----- rename -----

  const MaxNameLength: nat := 200

  datatype RenameOutcome = Renamed | TooLong | NotFoundOrInvalid

  /** The name `rename_chat` stores: the posted name, stripped, then cleaned. */
  function CleanName(raw: string, clean: string -> string): string {
    clean(Strip(raw))
  }

  /** The chats, by id: `ChatManager` over the `chats` dictionary. */
  class ChatStore {
    var chats: map<string, ChatData>

    constructor (initial: map<string, ChatData>)
      ensures chats == initial
    {
      chats := initial;
    }

    /** `get_chat`: the blocks of a chat, `None` for an unknown id (404). */
    function Blocks(cid: string): (r: Option<seq<Block>>)
      reads this
      ensures r.Some? <==> cid in chats
      ensures r.Some? ==> r.value == chats[cid].blocks
    {
      if cid in chats then Some(chats[cid].blocks) else None
    }

    /** `create_chat`: the new id (a fresh uuid, given as `cid`) maps to an empty chat. */
    method Create(cid: string) returns (name: string)
      modifies this
      ensures chats == old(chats)[cid := NewChat()]
      ensures name == DefaultChatName
    {
      chats := chats[cid := NewChat()];
      name := chats[cid].name;
    }

    /** `delete_chat`: removes a known chat; `ok` is false (404) for an unknown id. */
    method Delete(cid: string) returns (ok: bool)
      modifies this
      ensures ok <==> cid in old(chats)
      ensures chats == old(chats) - {cid}
    {
      ok := cid in chats;
      if ok {
        chats := chats - {cid};
      }
    }

    /**
     * `rename_chat`: `raw` is the posted name (`''` when missing). A cleaned
     * name over 200 characters is refused; otherwise a known chat and a
     * non-empty name rename it, anything else is an error.
     */
    method Rename(cid: string, raw: string, clean: string -> string) returns (outcome: RenameOutcome)
      modifies this
      ensures var n := CleanName(raw, clean);
        outcome == (if |n| > MaxNameLength then TooLong else if cid in old(chats) && n != "" then Renamed else NotFoundOrInvalid)
      ensures outcome == Renamed ==> chats == old(chats)[cid := old(chats)[cid].(name := CleanName(raw, clean))]
      ensures outcome != Renamed ==> chats == old(chats)
    {
      var n := CleanName(raw, clean);
      if |n| > MaxNameLength {
        return TooLong;
      }
      if cid in chats && n != "" {
        chats := chats[cid := chats[cid].(name := n)];
        return Renamed;
      }
      return NotFoundOrInvalid;
    }

    /** The block `send_message` saves before anything else: the message with its response pending. */
    method AppendPending(cid: string, userText: string)
      requires cid in chats
      modifies this
      ensures chats == old(chats)[cid := WithBlock(old(chats)[cid], userText, None)]
    {
      chats := chats[cid := WithBlock(chats[cid], userText, None)];
    }

    /** Overwrites the first response of the chat's last block. */
    method SetReply(cid: string, text: string)
      requires cid in chats && chats[cid].blocks != [] && chats[cid].blocks[|chats[cid].blocks| - 1].aiResponses != []
      modifies this
      ensures chats == old(chats)[cid := SetLastReply(old(chats)[cid], text)]
    {
      chats := chats[cid := SetLastReply(chats[cid], text)];
    }

    /** `chats[cid].name = name`. */
    method SetName(cid: string, name: string)
      requires cid in chats
      modifies this
      ensures chats == old(chats)[cid := old(chats)[cid].(name := name)]
    {
      chats := chats[cid := chats[cid].(name := name)];
    }
  }
}
