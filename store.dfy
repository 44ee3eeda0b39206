/**
 * Model of the Vuex store of src/store/index.js.
 *
 * The store's state is one object whose fields the mutations reassign; the
 * arrays it holds are shared objects, so they are classes here too:
 * `currentMessages` may be the very list a conversation holds (after a
 * switch), and a message object may sit in two lists at once.
 *
 * `Date.now()` readings (ids and timestamps) are parameters.
 */
module ChatStore {
  import Api

  datatype Option<T> = None | Some(value: T)

  /** The title `createConversation` gives a new conversation. */
  const DefaultTitle := "新对话"

  /** The longest content prefix a title keeps. */
  const TitleLength := 30

  /** A chat message; streaming rewrites its `content` in place. */
  class Message {
    const id: string
    const role: string
    var content: string
    const timestamp: int

    constructor (id: string, role: string, content: string, timestamp: int)
      ensures this.id == id && this.role == role
      ensures this.content == content && this.timestamp == timestamp
    {
      this.id := id;
      this.role := role;
      this.content := content;
      this.timestamp := timestamp;
    }
  }

  /** A JavaScript array of messages; several holders may share one. */
  class MessageList {
    var items: seq<Message>

    constructor ()
      ensures items == []
    {
      items := [];
    }

    /** `Array.prototype.push`. */
    method Push(m: Message)
      modifies this
      ensures items == old(items) + [m]
    {
      items := items + [m];
    }
  }

  /** A conversation; a missing title is "" and missing messages are null. */
  class Conversation {
    const id: string
    var title: string
    var messages: MessageList?
    const createTime: int
    var updateTime: int

    constructor (id: string, title: string, messages: MessageList?, createTime: int, updateTime: int)
      ensures this.id == id && this.title == title && this.messages == messages
      ensures this.createTime == createTime && this.updateTime == updateTime
    {
      this.id := id;
      this.title := title;
      this.messages := messages;
      this.createTime := createTime;
      this.updateTime := updateTime;
    }
  }

  function Last<T>(s: seq<T>): T
    requires s != []
  {
    s[|s| - 1]
  }

  /** `i` is the first position in `conversations` whose id is `id`. */
  predicate FirstMatch(conversations: seq<Conversation>, id: string, i: int)
  {
    && 0 <= i < |conversations|
    && conversations[i].id == id
    && forall j :: 0 <= j < i ==> conversations[j].id != id
  }

  /** `findIndex(c => c.id === id)`: the first match, or -1. */
  function FindIndex(conversations: seq<Conversation>, id: string): (i: int)
    ensures -1 <= i < |conversations|
    ensures 0 <= i ==> FirstMatch(conversations, id, i)
    ensures i < 0 ==> forall j :: 0 <= j < |conversations| ==> conversations[j].id != id
  {
    if conversations == [] then -1
    else if conversations[0].id == id then 0
    else
      var i := FindIndex(conversations[1..], id);
      if i < 0 then -1 else i + 1
  }

  /**
   * The automatic title: the first 30 characters of the content, followed
   * by "..." exactly when something was cut off.
   */
  function Title(content: string): (t: string)
    ensures |content| <= TitleLength ==> t == content
    ensures |content| > TitleLength ==>
      |t| == TitleLength + 3 && t[..TitleLength] == content[..TitleLength] && t[TitleLength..] == "..."
  {
    content[..Api.Min(TitleLength, |content|)] + (if |content| > TitleLength then "..." else "")
  }

  /** Every conversation is at least as recent as the ones after it. */
  ghost predicate NonIncreasing(conversations: seq<Conversation>)
    reads conversations
  {
    forall i, j :: 0 <= i < j < |conversations| ==> conversations[i].updateTime >= conversations[j].updateTime
  }

  /** Putting a conversation no older than the head in front of a sorted list keeps it sorted. */
  lemma {:induction false} ConsNonIncreasing(c: Conversation, sorted: seq<Conversation>)
    ensures NonIncreasing(sorted) && (sorted == [] || sorted[0].updateTime <= c.updateTime)
      ==> NonIncreasing([c] + sorted)
  {
  }

  /** Puts `c` in front of the first conversation that is not more recent than it. */
  function InsertByUpdateTime(c: Conversation, sorted: seq<Conversation>): (r: seq<Conversation>)
    reads c, set x | x in sorted
    ensures |r| == |sorted| + 1
    ensures forall x :: x in r ==> x == c || x in sorted
  {
    if sorted == [] || sorted[0].updateTime <= c.updateTime then
      [c] + sorted
    else
      assert sorted == [sorted[0]] + sorted[1..];
      [sorted[0]] + InsertByUpdateTime(c, sorted[1..])
  }

  /** Inserting adds exactly `c` and loses nothing. */
  lemma {:induction false} InsertPermutes(c: Conversation, sorted: seq<Conversation>)
    ensures multiset(InsertByUpdateTime(c, sorted)) == multiset(sorted) + multiset{c}
  {
    if sorted == [] || sorted[0].updateTime <= c.updateTime {
    } else {
      assert sorted == [sorted[0]] + sorted[1..];
      InsertPermutes(c, sorted[1..]);
    }
  }

  /** Inserting into a list sorted newest first keeps it sorted; the head is `c` or the old head. */
  lemma {:induction false} InsertKeepsOrder(c: Conversation, sorted: seq<Conversation>)
    requires NonIncreasing(sorted)
    ensures NonIncreasing(InsertByUpdateTime(c, sorted))
    ensures InsertByUpdateTime(c, sorted)[0] == c || (sorted != [] && InsertByUpdateTime(c, sorted)[0] == sorted[0])
  {
    if sorted == [] || sorted[0].updateTime <= c.updateTime {
      ConsNonIncreasing(c, sorted);
    } else {
      assert sorted == [sorted[0]] + sorted[1..];
      var rest := InsertByUpdateTime(c, sorted[1..]);
      assert NonIncreasing(sorted[1..]);
      InsertKeepsOrder(c, sorted[1..]);
      ConsNonIncreasing(sorted[0], rest);
    }
  }

  /** `[...conversations].sort((a, b) => b.updateTime - a.updateTime)`, as an insertion sort. */
  function SortByUpdateTime(conversations: seq<Conversation>): (r: seq<Conversation>)
    reads conversations
    ensures |r| == |conversations|
    ensures forall x :: x in r ==> x in conversations
  {
    if conversations == [] then []
    else
      assert conversations == [conversations[0]] + conversations[1..];
      var rest := SortByUpdateTime(conversations[1..]);
      assert forall x :: x in rest ==> x in conversations;
      InsertByUpdateTime(conversations[0], rest)
  }

  /** The sorted list holds the same conversations, each as often as before. */
  lemma {:induction false} SortPermutes(conversations: seq<Conversation>)
    ensures multiset(SortByUpdateTime(conversations)) == multiset(conversations)
  {
    if conversations != [] {
      assert conversations == [conversations[0]] + conversations[1..];
      SortPermutes(conversations[1..]);
      InsertPermutes(conversations[0], SortByUpdateTime(conversations[1..]));
    }
  }

  /** The sorted list is ordered newest first. */
  lemma {:induction false} SortOrders(conversations: seq<Conversation>)
    ensures NonIncreasing(SortByUpdateTime(conversations))
  {
    if conversations != [] {
      SortOrders(conversations[1..]);
      InsertKeepsOrder(conversations[0], SortByUpdateTime(conversations[1..]));
    }
  }

  /** The store's `state`, with the mutations as methods and the getters as functions. */
  class Store {
    var currentConversationId: Option<string>
    var conversations: seq<Conversation>
    var currentMessages: MessageList
    var isGenerating: bool

    /** The initial state. */
    constructor ()
      ensures currentConversationId == None && conversations == []
      ensures fresh(currentMessages) && currentMessages.items == []
      ensures !isGenerating
    {
      currentConversationId := None;
      conversations := [];
      currentMessages := new MessageList();
      isGenerating := false;
    }

    /**
     * Getter `currentConversation`: the first conversation whose id is the
     * current id, or null (also when there is no current id).
     */
    function CurrentConversation(): (c: Conversation?)
      reads this`conversations, this`currentConversationId
      ensures c == null <==>
        currentConversationId.None? ||
        forall j :: 0 <= j < |conversations| ==> conversations[j].id != currentConversationId.value
      ensures c != null ==> exists i :: FirstMatch(conversations, currentConversationId.value, i) && conversations[i] == c
    {
      match currentConversationId
      case None => null
      case Some(id) =>
        var i := FindIndex(conversations, id);
        if i < 0 then null else conversations[i]
    }

    /** The objects ADD_MESSAGE may write besides `currentMessages`: the current conversation and its list. */
    function TargetFrame(): set<object>
      reads this`conversations, this`currentConversationId, conversations
    {
      var c := CurrentConversation();
      if c == null then {} else if c.messages == null then {c} else {c, c.messages}
    }

    /** The message objects UPDATE_LAST_MESSAGE rewrites. */
    function LastMessages(): set<object>
      reads this`conversations, this`currentConversationId, this`currentMessages
      reads currentMessages, conversations, TargetFrame()
    {
      var c := CurrentConversation();
      if currentMessages.items == [] then {}
      else if c != null && c.messages != null && c.messages.items != [] then
        {Last(currentMessages.items), Last(c.messages.items)}
      else
        {Last(currentMessages.items)}
    }

    /** Getter `sortedConversations`: a sorted copy; the state is left as it is. */
    function SortedConversations(): (r: seq<Conversation>)
      reads this`conversations, conversations
      ensures multiset(r) == multiset(conversations)
      ensures NonIncreasing(r)
    {
      SortPermutes(conversations);
      SortOrders(conversations);
      SortByUpdateTime(conversations)
    }

    /** CREATE_CONVERSATION: the new conversation goes first and becomes current, with a fresh empty list. */
    method CreateConversation(c: Conversation)
      modifies this
      ensures conversations == [c] + old(conversations)
      ensures currentConversationId == Some(c.id)
      ensures fresh(currentMessages) && currentMessages.items == []
      ensures isGenerating == old(isGenerating)
    {
      conversations := [c] + conversations;
      currentConversationId := Some(c.id);
      currentMessages := new MessageList();
    }

    /**
     * SWITCH_CONVERSATION: the id always becomes current; the message list
     * is replaced only when a conversation with that id exists, and then it
     * IS that conversation's list (or a fresh empty one if it has none).
     */
    method SwitchConversation(id: string)
      modifies this
      ensures currentConversationId == Some(id)
      ensures conversations == old(conversations) && isGenerating == old(isGenerating)
      ensures var i := FindIndex(conversations, id);
        && (i < 0 ==> currentMessages == old(currentMessages))
        && (0 <= i && conversations[i].messages != null ==> currentMessages == conversations[i].messages)
        && (0 <= i && conversations[i].messages == null ==> fresh(currentMessages) && currentMessages.items == [])
    {
      currentConversationId := Some(id);
      var i := FindIndex(conversations, id);
      if 0 <= i {
        var c := conversations[i];
        if c.messages != null {
          currentMessages := c.messages;
        } else {
          currentMessages := new MessageList();
        }
      }
    }

    /**
     * ADD_MESSAGE: pushes onto the current list and, when the current
     * conversation exists, onto its list too (creating it if missing),
     * updates its title rule and its update time. When the two lists are
     * one object, that object receives the message twice.
     */
    method AddMessage(m: Message, now: int)
      modifies currentMessages, TargetFrame()
      ensures conversations == old(conversations) && currentConversationId == old(currentConversationId)
      ensures currentMessages == old(currentMessages) && isGenerating == old(isGenerating)
      ensures CurrentConversation() == null ==> currentMessages.items == old(currentMessages.items) + [m]
      ensures var c := CurrentConversation(); c != null ==>
        && c.updateTime == now
        && c.title == (if m.role == "user" && old(c.title) == "" then Title(m.content) else old(c.title))
        && c.messages != null
        && (old(c.messages) == null ==>
              fresh(c.messages) && c.messages.items == [m]
              && currentMessages.items == old(currentMessages.items) + [m])
        && (old(c.messages) == currentMessages ==>
              c.messages == currentMessages
              && currentMessages.items == old(currentMessages.items) + [m, m])
        && (old(c.messages) != null && old(c.messages) != currentMessages ==>
              c.messages == old(c.messages) && c.messages.items == old(c.messages.items) + [m]
              && currentMessages.items == old(currentMessages.items) + [m])
    {
      currentMessages.Push(m);
      var c := CurrentConversation();
      if c != null {
        if c.messages == null {
          c.messages := new MessageList();
        }
        c.messages.Push(m);
        if m.role == "user" && c.title == "" {
          c.title := Title(m.content);
        }
        c.updateTime := now;
      }
    }

    /**
     * UPDATE_LAST_MESSAGE: nothing when the current list is empty; otherwise
     * the last current message and the current conversation's last message
     * get `content`. No list changes and no other message is touched.
     */
    method UpdateLastMessage(content: string)
      modifies LastMessages()
      ensures currentMessages.items == old(currentMessages.items)
      ensures currentMessages.items != [] ==> Last(currentMessages.items).content == content
      ensures var c := CurrentConversation();
        currentMessages.items != [] && c != null && c.messages != null && c.messages.items != [] ==>
          c.messages.items == old(c.messages.items) && Last(c.messages.items).content == content
    {
      if |currentMessages.items| > 0 {
        var lastMessage := Last(currentMessages.items);
        lastMessage.content := content;
        var c := CurrentConversation();
        if c != null && c.messages != null && |c.messages.items| > 0 {
          Last(c.messages.items).content := content;
        }
      }
    }

    /** SET_GENERATING. */
    method SetGenerating(generating: bool)
      modifies this`isGenerating
      ensures isGenerating == generating
    {
      isGenerating := generating;
    }

    /**
     * DELETE_CONVERSATION: removes the first conversation with the id, and
     * clears the current id and list only when that id was current.
     */
    method DeleteConversation(id: string)
      modifies this
      ensures isGenerating == old(isGenerating)
      ensures var i := FindIndex(old(conversations), id);
        if i < 0 then
          && conversations == old(conversations)
          && currentConversationId == old(currentConversationId)
          && currentMessages == old(currentMessages)
        else
          && conversations == old(conversations)[..i] + old(conversations)[i + 1..]
          && (old(currentConversationId) == Some(id) ==>
                currentConversationId == None && fresh(currentMessages) && currentMessages.items == [])
          && (old(currentConversationId) != Some(id) ==>
                currentConversationId == old(currentConversationId) && currentMessages == old(currentMessages))
    {
      var i := FindIndex(conversations, id);
      if i != -1 {
        conversations := conversations[..i] + conversations[i + 1..];
        if currentConversationId == Some(id) {
          currentConversationId := None;
          currentMessages := new MessageList();
        }
      }
    }

    /** CLEAR_ALL_CONVERSATIONS. */
    method ClearAllConversations()
      modifies this
      ensures conversations == [] && currentConversationId == None
      ensures fresh(currentMessages) && currentMessages.items == []
      ensures isGenerating == old(isGenerating)
    {
      conversations := [];
      currentConversationId := None;
      currentMessages := new MessageList();
    }

    /**
     * Action `createConversation`: a new conversation titled "新对话" with
     * its own empty list, committed with CREATE_CONVERSATION; returns its id.
     * The current list that the commit installs is a different object.
     */
    method DispatchCreateConversation(id: string, createTime: int, updateTime: int) returns (newId: string)
      modifies this
      ensures newId == id
      ensures |conversations| == |old(conversations)| + 1 && conversations[1..] == old(conversations)
      ensures var c := conversations[0];
        && fresh(c) && c.id == id && c.title == DefaultTitle
        && c.createTime == createTime && c.updateTime == updateTime
        && c.messages != null && fresh(c.messages) && c.messages.items == []
        && c.messages != currentMessages
      ensures currentConversationId == Some(id)
      ensures fresh(currentMessages) && currentMessages.items == []
      ensures isGenerating == old(isGenerating)
    {
      var messages := new MessageList();
      var c := new Conversation(id, DefaultTitle, messages, createTime, updateTime);
      CreateConversation(c);
      newId := c.id;
    }

    /**
     * The two ADD_MESSAGE commits of action `sendMessage`: the user message,
     * then the assistant message. Afterwards the assistant message is the
     * last message of every list UPDATE_LAST_MESSAGE looks at.
     */
    method AddExchange(user: Message, assistant: Message, userNow: int, assistantNow: int)
      requires user != assistant && user.role == "user" && assistant.role == "assistant"
      modifies currentMessages, TargetFrame()
      ensures conversations == old(conversations) && currentConversationId == old(currentConversationId)
      ensures currentMessages == old(currentMessages) && isGenerating == old(isGenerating)
      ensures LastMessages() == {assistant}
      ensures CurrentConversation() == null ==> currentMessages.items == old(currentMessages.items) + [user, assistant]
      ensures var c := CurrentConversation(); c != null ==>
        && c.updateTime == assistantNow
        && c.title == (if old(c.title) == "" then Title(user.content) else old(c.title))
        && c.messages != null
        && (old(c.messages) == null ==>
              c.messages.items == [user, assistant]
              && currentMessages.items == old(currentMessages.items) + [user, assistant])
        && (old(c.messages) == currentMessages ==>
              c.messages == currentMessages
              && currentMessages.items == old(currentMessages.items) + [user, user, assistant, assistant])
        && (old(c.messages) != null && old(c.messages) != currentMessages ==>
              c.messages == old(c.messages) && c.messages.items == old(c.messages.items) + [user, assistant]
              && currentMessages.items == old(currentMessages.items) + [user, assistant])
    {
      AddMessage(user, userNow);
      AddMessage(assistant, assistantNow);
    }

    /**
     * Action `sendMessage`: adds the user message, then an empty assistant
     * message, raises `isGenerating`, feeds every chunk of the responder into
     * the assistant message (UPDATE_LAST_MESSAGE after each) and lowers
     * `isGenerating` at the end. The two created messages and the chunks are
     * returned for the specification only.
     */
    method DispatchSendMessage(content: string,
                               userId: string, userTimestamp: int, userNow: int,
                               assistantId: string, assistantTimestamp: int, assistantNow: int,
                               variantDraw: real, draws: nat -> real)
      returns (ghost user: Message, ghost assistant: Message, ghost chunks: seq<string>)
      requires 0.0 <= variantDraw < 1.0
      requires forall k :: 0.0 <= draws(k) < 1.0
      modifies this, currentMessages, TargetFrame()
      ensures fresh(user) && fresh(assistant)
      ensures user.id == userId && user.role == "user" && user.content == content && user.timestamp == userTimestamp
      ensures assistant.id == assistantId && assistant.role == "assistant" && assistant.timestamp == assistantTimestamp
      ensures chunks == Api.Chunks(Api.SelectReply(content, variantDraw), draws, 0, 0)
      ensures assistant.content == Api.Concat(chunks) == Api.SelectReply(content, variantDraw)
      ensures !isGenerating
      ensures conversations == old(conversations) && currentConversationId == old(currentConversationId)
      ensures currentMessages == old(currentMessages)
      ensures CurrentConversation() == null ==> currentMessages.items == old(currentMessages.items) + [user, assistant]
      ensures var c := CurrentConversation(); c != null ==>
        && c.updateTime == assistantNow
        && c.title == (if old(c.title) == "" then Title(content) else old(c.title))
        && c.messages != null
        && (old(c.messages) == null ==>
              c.messages.items == [user, assistant]
              && currentMessages.items == old(currentMessages.items) + [user, assistant])
        && (old(c.messages) == currentMessages ==>
              c.messages == currentMessages
              && currentMessages.items == old(currentMessages.items) + [user, user, assistant, assistant])
        && (old(c.messages) != null && old(c.messages) != currentMessages ==>
              c.messages == old(c.messages) && c.messages.items == old(c.messages.items) + [user, assistant]
              && currentMessages.items == old(currentMessages.items) + [user, assistant])
    {
      var userMessage := new Message(userId, "user", content, userTimestamp);
      var assistantMessage := new Message(assistantId, "assistant", "", assistantTimestamp);
      AddExchange(userMessage, assistantMessage, userNow, assistantNow);
      SetGenerating(true);
      user, assistant := userMessage, assistantMessage;

      chunks := Generate(assistantMessage, content, variantDraw, draws);
      SetGenerating(false);
    }

    /**
     * The `api.sendMessage(content, onChunk)` call of action `sendMessage`:
     * the responder runs with an onChunk callback, and every chunk it
     * delivers is fed into the assistant message.
     */
    method Generate(assistant: Message, content: string, variantDraw: real, draws: nat -> real)
      returns (ghost chunks: seq<string>)
      requires 0.0 <= variantDraw < 1.0
      requires forall k :: 0.0 <= draws(k) < 1.0
      requires LastMessages() == {assistant}
      modifies assistant
      ensures chunks == Api.Chunks(Api.SelectReply(content, variantDraw), draws, 0, 0)
      ensures Api.Concat(chunks) == Api.SelectReply(content, variantDraw)
      ensures assistant.content == old(assistant.content) + Api.Concat(chunks)
    {
      var reply, cut, ticks, events := Api.SendMessage(content, variantDraw, draws, true);
      FeedChunks(assistant, cut);
      chunks := cut;
    }

    /**
     * The onChunk callback of action `sendMessage`, once per chunk in order:
     * append the chunk to the assistant message, then commit
     * UPDATE_LAST_MESSAGE with its content. The assistant message is the
     * last message of both lists, so it is the only object written.
     */
    method FeedChunks(assistant: Message, chunks: seq<string>)
      requires LastMessages() == {assistant}
      modifies assistant
      ensures assistant.content == old(assistant.content) + Api.Concat(chunks)
    {
      var k := 0;
      while k < |chunks|
        invariant 0 <= k <= |chunks|
        invariant assistant.content == old(assistant.content) + Api.Concat(chunks[..k])
      {
        assert chunks[..k + 1] == chunks[..k] + [chunks[k]];
        Api.ConcatAppend(chunks[..k], chunks[k]);
        assistant.content := assistant.content + chunks[k];
        UpdateLastMessage(assistant.content);
        k := k + 1;
      }
      assert chunks[..|chunks|] == chunks;
    }
  }

  /**
   * After CREATE_CONVERSATION the current list and the conversation's list
   * are two objects: a message added then lands once in each, the
   * conversation stays current under the id the action returned, and the
   * default title is kept.
   */
  method CreateThenAddAppendsOnce(id: string, now: int, m: Message)
    returns (current: seq<Message>, stored: seq<Message>, title: string, currentId: Option<string>)
    ensures current == [m] && stored == [m]
    ensures title == DefaultTitle
    ensures currentId == Some(id)
  {
    var store := new Store();
    var newId := store.DispatchCreateConversation(id, now, now);
    var c := store.conversations[0];
    store.AddMessage(m, now);
    current := store.currentMessages.items;
    stored := c.messages.items;
    title := c.title;
    currentId := store.currentConversationId;
    assert currentId == Some(newId);
  }

  /**
   * After SWITCH_CONVERSATION the current list IS the conversation's list,
   * so ADD_MESSAGE pushes the message into it twice.
   */
  method SwitchThenAddAppendsTwice(id: string, now: int, m: Message)
    returns (current: seq<Message>)
    ensures current == [m, m]
  {
    var store := new Store();
    var newId := store.DispatchCreateConversation(id, now, now);
    store.SwitchConversation(newId);
    store.AddMessage(m, now);
    current := store.currentMessages.items;
  }
}
