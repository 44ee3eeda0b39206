# Chat assistant core: mock streaming responder and conversation store

This project models the two core parts of a small chat web application.

- **`Api`** (`api.dfy`) models the mock responder `sendMessage` of `src/api/index.js`.
  - It classifies the user message as a greeting, a question or anything else.
  - It picks a reply from a fixed catalogue of five texts. A greeting always gets entry 0. A question gets a random entry 1..4. Anything else gets a random entry 0..4.
  - It then streams the reply. On each 50 ms tick it cuts 1 to 3 characters at a cursor and hands them to the `onChunk` callback. The tick that finds the cursor at or past the end clears the interval and resolves `{success: true, message: "发送成功"}`.
  - Every `Math.random()` value is an input: `variantDraw` for the reply and `draws(k)` for the k-th chunk size. Each is a real in [0, 1), turned into an integer by the source's formula, evaluated in exact real arithmetic.
- **`ChatStore`** (`store.dfy`) models the Vuex store of `src/store/index.js`.
  - It covers the state, the seven mutations, the actions `createConversation` and `sendMessage`, and the two getters.
  - The state, every conversation, every message and every message array are objects the store updates in place, so each is a Dafny `class`.
  - After `SWITCH_CONVERSATION`, `currentMessages` is the very array the conversation holds. The model keeps that aliasing: `ADD_MESSAGE` then pushes the message into that one array twice. `SwitchThenAddAppendsTwice` shows this. `CreateThenAddAppendsOnce` shows that after `CREATE_CONVERSATION` the two lists are distinct and each gets the message once.

The reply streaming is specified by the recursive function `Api.Chunks`. It gives the chunks that the remaining ticks cut from a cursor position. The loop in `Api.Stream` is proved against it, and lemmas prove what the chunks are: a tiling of the reply, chunk sizes, and chunk count. The action `sendMessage` feeds those chunks into the assistant message. Its contract proves that the assistant message ends up holding exactly the selected reply.

## Model

| member | source | states |
|---|---|---|
| Api.Contains | src/api/index.js:26-28 | `includes` holds iff some offset of the string starts a copy of the pattern |
| Api.CaseInsensitiveHello | src/api/index.js:26 | the lower-cased message holds "hello" exactly when the message holds some word whose lower case is "hello" |
| Api.HasGreeting | src/api/index.js:26 | the greeting test holds exactly when some word reads "hello" in any mix of cases, or "你好" or "您好" occurs |
| Api.HasQuestionMarker | src/api/index.js:28 | the question test holds exactly when some character is '?', '？' or '吗', or starts "什么" |
| Api.Classify | src/api/index.js:26-32 | the greeting test is asked first: a message is a question exactly when it fails the greeting test and passes the question test, and falls through exactly when it fails both |
| Api.ReplyIndex | src/api/index.js:26-32 | the chosen index always lies inside the five-entry catalogue, for every message and every draw in [0, 1) |
| Api.SelectReply | src/api/index.js:26-32 | the reply is always a catalogue entry: entry 0 for a greeting, and never entry 0 for a question that is not a greeting |
| Api.GreetingReply | src/api/index.js:26-27 | a message passing the greeting test gets entry 0 whatever the draw, even when it is also a question |
| Api.QuestionReply | src/api/index.js:28-29 | a question that is not a greeting gets one of entries 1..4 and never the greeting reply |
| Api.QuestionVariantReachable | src/api/index.js:29 | each of entries 1..4 is chosen for a question by some draw |
| Api.GeneralVariantReachable | src/api/index.js:30-31 | each of entries 0..4 is chosen by some draw for a message that is neither greeting nor question |
| Api.HelloInAnyCase | src/api/index.js:26 | any word whose lower case is "hello" (HELLO, Hello, hElLo, ...) makes the message a greeting with entry 0 |
| Api.NiHaoGetsGreeting | src/api/index.js:26-27 | "你好" gets the greeting reply for every draw |
| Api.QuestionWithoutGreetingLetters | src/api/index.js:26-29 | a message with "吗" and without the characters that start a greeting keyword (such as "这个方案可行吗？") gets an entry in 1..4 |
| Api.EmptyMessageAnyReply | src/api/index.js:30-31 | the empty message falls to the last branch and every catalogue entry is possible for it |
| Api.ChunkSize | src/api/index.js:39 | a drawn chunk size is 1, 2 or 3 |
| Api.ChunkEvents | src/api/index.js:43-45 | the callback observes exactly one chunk event per chunk, in chunk order |
| Api.Chunks | src/api/index.js:35-45 | the ticks still to come cut no chunk exactly when the cursor is at or past the end of the reply |
| Api.ChunksTileReply | src/api/index.js:35-45 | the chunks from a cursor, joined, are exactly the rest of the reply: no gap, overlap or reordering |
| Api.ChunkLengths | src/api/index.js:39-41 | every chunk has 1..3 characters; every chunk but the last has exactly its drawn size; the last has at most its drawn size |
| Api.ChunkCount | src/api/index.js:37-41 | n remaining characters give between n/3 and n chunks |
| Api.ChunksOfReply | src/api/index.js:35-45 | tiling, chunk sizes and chunk count for a whole reply from cursor 0 |
| Api.Stream | src/api/index.js:35-53 | the interval loop emits exactly `Chunks(reply, draws, 0, 0)`, fires one tick per chunk plus the resolving tick, and the caller sees the chunk events (when `onChunk` is a function) followed by the single resolution, which occurs exactly once and last |
| Api.SendMessage | src/api/index.js:21-55 | `sendMessage` streams the selected reply: the chunks join to the reply, each is 1..3 characters long, ticks and events as in `Stream` |
| Api.ResolvedOnceAtEnd | src/api/index.js:46-51 | the resolution is observed exactly once and is the last event; no chunk follows it |
| ChatStore.MessageList.Push | src/store/index.js:37 | `push` appends the message at the end and changes nothing else in the array |
| ChatStore.FindIndex | src/store/index.js:75 | `findIndex` returns the first position whose id matches, or -1 exactly when no conversation has the id |
| ChatStore.Title | src/store/index.js:47 | the automatic title is the content when it has at most 30 characters; otherwise it is its first 30 characters followed by "..." |
| ChatStore.InsertByUpdateTime | src/store/index.js:154 | inserting one conversation gives a list one longer that holds only that conversation and the old ones |
| ChatStore.InsertPermutes | src/store/index.js:154 | inserting one conversation adds exactly that conversation and loses none |
| ChatStore.InsertKeepsOrder | src/store/index.js:154 | inserting into a list ordered newest first keeps it ordered; the new head is the inserted conversation or the old head |
| ChatStore.SortByUpdateTime | src/store/index.js:154 | the sorted copy has the same length and holds only conversations of the input |
| ChatStore.SortPermutes | src/store/index.js:154 | the sorted copy is a permutation of the conversations |
| ChatStore.SortOrders | src/store/index.js:154 | the sorted copy is ordered by `updateTime`, newest first |
| ChatStore.Store.constructor | src/store/index.js:7-16 | the initial state: no current id, no conversations, an empty current list, not generating |
| ChatStore.Store.CurrentConversation | src/store/index.js:148-150 | the getter gives the first conversation whose id is the current id, and null exactly when there is no current id or no such conversation |
| ChatStore.Store.SortedConversations | src/store/index.js:153-155 | the getter gives a permutation of the conversations ordered by `updateTime`, newest first, and changes nothing |
| ChatStore.Store.CreateConversation | src/store/index.js:20-24 | the conversation is put in front and becomes current, with a fresh empty current list; nothing else changes |
| ChatStore.Store.SwitchConversation | src/store/index.js:27-33 | the id always becomes current; the current list becomes the conversation's own list (or a fresh empty one) when the id exists, and is kept otherwise |
| ChatStore.Store.AddMessage | src/store/index.js:36-51 | the message is pushed onto the current list and the current conversation's list (created if missing), twice onto a shared list; a user message titles an untitled conversation; the update time is set |
| ChatStore.Store.UpdateLastMessage | src/store/index.js:55-66 | with a non-empty current list, its last message and the current conversation's last message get the content; no list changes and no other object is written |
| ChatStore.Store.SetGenerating | src/store/index.js:69-71 | sets the flag and writes nothing else |
| ChatStore.Store.DeleteConversation | src/store/index.js:74-84 | removes the first conversation with the id, keeps the others in order, and clears the current id and list only when the deleted id was current; an unknown id changes nothing |
| ChatStore.Store.ClearAllConversations | src/store/index.js:87-91 | no conversations, no current id, a fresh empty current list |
| ChatStore.Store.DispatchCreateConversation | src/store/index.js:96-106 | the action commits a fresh conversation titled "新对话" with its own empty list in front, makes it current and returns its id |
| ChatStore.Store.AddExchange | src/store/index.js:109-126 | the user message and then the empty assistant message land in the current list and the conversation's list; afterwards the assistant message is the only last message |
| ChatStore.Store.DispatchSendMessage | src/store/index.js:109-143 | the action adds both messages, the chunks it feeds are exactly the responder's chunks, the assistant message ends up holding exactly the selected reply, the conversation is titled from the user's content when untitled, and `isGenerating` is false at the end |
| ChatStore.Store.Generate | src/store/index.js:129-136 | the chunks fed in are exactly the responder's chunks `Chunks(SelectReply(content, variantDraw), draws, 0, 0)`; they join to the selected reply and are all appended to the assistant message |
| ChatStore.Store.FeedChunks | src/store/index.js:132-136 | feeding the chunks one at a time through the callback leaves the assistant message holding its old content followed by every chunk, in order |
| ChatStore.CreateThenAddAppendsOnce | src/store/index.js:20-51 | after creating a conversation, an added message appears once in the current list and once in the conversation's list, the conversation stays current under its id, and the title stays "新对话" |
| ChatStore.SwitchThenAddAppendsTwice | src/store/index.js:27-51 | after switching to the id that createConversation returned, an added message appears twice in the shared list |

## Left out

- Timers: the 50 ms interval and `setTimeout`-based `delay` are not modelled. A tick is one loop iteration, and the number of ticks is returned.
- Promises: the returned promise is modelled by the events the caller observes. Its `await` suspension is not modelled.
- The `catch` branch of action `sendMessage` (store lines 137-139) is left out. The modelled responder always resolves and never rejects, so that branch is unreachable. The `finally` reset of `isGenerating` is modelled.
- Interleaving: in action `sendMessage` the `onChunk` calls are applied one after another after the responder's loop. Another mutation running between two ticks is not modelled. For example, a switch while a reply is streaming would redirect `UPDATE_LAST_MESSAGE`.
- `getConversations`, `deleteConversation` and `clearAllConversations` of `src/api/index.js` are not part of this model. They are constant stubs with no logic.
- Vue reactivity, the router, the components and the build setup are not part of this model.
- `Date.now()`: every reading (ids, timestamps, the update time) is a parameter. The model does not state that ids are the decimal text of the clock, or that the assistant id is one more than the clock.
- Api.ToLower: only ASCII capitals are mapped. JavaScript also lower-cases other letters, but no other character lower-cases to one of the letters of "hello", so the greeting test is unaffected.
- String length: JavaScript counts UTF-16 code units and the model counts characters. Every catalogue character is in the Basic Multilingual Plane, so the two agree for every reply the responder streams.
- ChatStore.Title: the 30-character cut and the length test count characters, while `substring(0, 30)` and `length > 30` count UTF-16 code units. For content with characters outside the Basic Multilingual Plane the titles differ. For example, 16 emoji give 15 emoji and "..." in the source, but all 16 emoji and no "..." in the model. The source's cut can also split a surrogate pair, which a character cannot hold. ChatStore.Store.AddMessage and ChatStore.Store.DispatchSendMessage inherit this through the title rule.
- Random draws: the reply index and the chunk size apply the source's formula to the draw in exact real arithmetic. JavaScript rounds the double product before the floor, so a few draws land on a different integer. For example, the double nearest 0.6 gives index 3 in the fallback branch, but 2 in exact arithmetic. The model takes every real in [0, 1), so each possible index and size is still reachable, and every stated bound holds for the source's values too.
- A missing conversation title is the empty string (the only falsy string), and a missing message array is `null`. Other falsy values are not modelled.
- Conversation and message ids are strings. Comparisons with `===` between differently typed values are not modelled.
- ChatStore.Store.SortedConversations: the order among conversations with equal `updateTime` is not stated. JavaScript's sort is stable, and the model's insertion sort also keeps that order, but no contract says so.
- ChatStore.InsertByUpdateTime and ChatStore.SortByUpdateTime state only length and membership themselves. Their ordering and permutation facts are the lemmas in the table.
- The responder's cursor advances by the drawn chunk size (src/api/index.js:41), not by the length of the cut slice. The model follows the code. The two differ only on the last chunk, after which the cursor is at or past the end either way.
- The greeting test matches "hello" in any letter case, because the code lower-cases the message first. It is not limited to the lower-case word.
