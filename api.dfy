/**
 * Model of the mock streaming responder of src/api/index.js.
 *
 * The responder classifies the user message, picks a reply from a fixed
 * catalogue and then, one timer tick at a time, cuts the reply into chunks
 * of one to three characters that it hands to the caller's onChunk callback,
 * resolving a success result on the tick that finds the reply exhausted.
 *
 * Every call to Math.random() is an input here: a real draw in [0, 1),
 * turned into an index or a chunk size by the source's formula, evaluated
 * in exact real arithmetic (without the rounding of the double product).
 */
module Api {

  /** The reply catalogue (`mockResponses`), in order. */
  const MockResponses: seq<string> := [
    "您好！我是阿孝问问，一个智能对话助手。我可以帮助您解答问题、提供建议、进行创意讨论等。请问有什么我可以帮助您的吗？",
    "这是一个很好的问题。让我来帮您分析一下：\n\n首先，我们需要考虑几个关键因素...\n\n其次，根据实际情况...\n\n最后，我建议...",
    "关于这个话题，我有以下几点看法：\n\n1. 从技术角度来看，这确实是一个值得探讨的方向\n2. 考虑到实际应用场景，我们需要权衡利弊\n3. 综合来看，这个方案具有一定的可行性",
    "理解您的想法。这个问题涉及到多个层面：\n\n**理论层面**：相关研究表明...\n\n**实践层面**：在实际应用中...\n\n**建议**：基于以上分析，我认为...",
    "很高兴能和您讨论这个话题！根据我的了解：\n\n✓ 这个方向确实很有前景\n✓ 需要注意的关键点包括...\n✓ 可以尝试从以下几个方面入手...\n\n希望这些信息对您有帮助！"
  ]

  /** The result the stream resolves with: `{success, message}`. */
  datatype StreamResult = StreamResult(success: bool, message: string)

  /** The one result the responder ever resolves with. */
  const Sent := StreamResult(true, "发送成功")

  /** What the caller observes during one send: an onChunk call or the resolution. */
  datatype Event = Chunk(text: string) | Resolve(result: StreamResult)

  /** The three classes of the if/else-if/else chain that picks the reply. */
  datatype Category = Greeting | Question | General

  // ---------------------------------------------------------------------
  // String containment and ASCII lower-casing
  // ---------------------------------------------------------------------

  /** `t` occurs in `s` starting at offset `i`. */
  predicate OccursAt(s: string, t: string, i: int)
  {
    0 <= i && i + |t| <= |s| && s[i..i + |t|] == t
  }

  lemma OccursShift(s: string, t: string, i: int)
    requires |s| > 0 && 0 <= i
    ensures OccursAt(s[1..], t, i) <==> OccursAt(s, t, i + 1)
  {
  }

  /** `String.prototype.includes`: some offset of `s` starts a copy of `t`. */
  function Contains(s: string, t: string): (b: bool)
    ensures b <==> exists i :: OccursAt(s, t, i)
    decreases |s|
  {
    if |t| > |s| then
      false
    else if s[..|t|] == t then
      assert OccursAt(s, t, 0);
      true
    else
      var b := Contains(s[1..], t);
      assert b ==> exists i :: OccursAt(s, t, i) by {
        if b {
          var i :| OccursAt(s[1..], t, i);
          OccursShift(s, t, i);
        }
      }
      assert (exists i :: OccursAt(s, t, i)) ==> b by {
        if exists i :: OccursAt(s, t, i) {
          var i :| OccursAt(s, t, i);
          assert i != 0;
          OccursShift(s, t, i - 1);
        }
      }
      b
  }

  /** A pattern whose first character never appears in `s` does not occur in it. */
  lemma FirstCharAbsent(s: string, t: string)
    requires |t| > 0 && t[0] !in s
    ensures !Contains(s, t)
  {
  }

  /** `toLowerCase` on one character; only ASCII capitals are mapped (see README). */
  function LowerChar(c: char): char
  {
    if 'A' <= c <= 'Z' then (c as int + 32) as char else c
  }

  /** `String.prototype.toLowerCase`, character by character. */
  function ToLower(s: string): (r: string)
    ensures |r| == |s|
    ensures forall i :: 0 <= i < |s| ==> r[i] == LowerChar(s[i])
  {
    seq(|s|, i requires 0 <= i < |s| => LowerChar(s[i]))
  }

  // ---------------------------------------------------------------------
  // Reply selection
  // ---------------------------------------------------------------------

  /**
   * The greeting test: the lower-cased message holds "hello", or the message
   * holds one of the two Chinese greetings. It holds exactly when some word
   * of the message reads "hello" in any mix of cases, or a Chinese greeting
   * occurs in it.
   */
  function HasGreeting(message: string): (b: bool)
    ensures b <==>
      || (exists i, w :: OccursAt(message, w, i) && ToLower(w) == "hello")
      || (exists i :: OccursAt(message, "你好", i))
      || (exists i :: OccursAt(message, "您好", i))
  {
    CaseInsensitiveHello(message);
    Contains(ToLower(message), "hello") || Contains(message, "你好") || Contains(message, "您好")
  }

  /** `c` occurs at `i` as a one-character string exactly when `s[i]` is `c`. */
  lemma SingleCharOccurs(s: string, c: char)
    ensures forall i :: OccursAt(s, [c], i) <==> 0 <= i < |s| && s[i] == c
  {
    forall i | 0 <= i < |s|
      ensures OccursAt(s, [c], i) <==> s[i] == c
    {
      assert s[i..i + 1] == [s[i]];
    }
  }

  /**
   * The question test: either question mark, "吗" or "什么". It holds
   * exactly when some character of the message is one of the three
   * one-character markers or starts "什么".
   */
  function HasQuestionMarker(message: string): (b: bool)
    ensures b <==> exists i :: 0 <= i < |message| && (message[i] == '?' || message[i] == '？' || message[i] == '吗' || OccursAt(message, "什么", i))
  {
    SingleCharOccurs(message, '?');
    SingleCharOccurs(message, '？');
    SingleCharOccurs(message, '吗');
    Contains(message, "?") || Contains(message, "？") || Contains(message, "吗") || Contains(message, "什么")
  }

  /**
   * The if/else-if/else chain: the greeting test is asked first, so a
   * message is a question only when it is not a greeting, and falls through
   * only when it is neither.
   */
  function Classify(message: string): (c: Category)
    ensures c == Greeting <==> HasGreeting(message)
    ensures c == Question <==> !HasGreeting(message) && HasQuestionMarker(message)
    ensures c == General <==> !HasGreeting(message) && !HasQuestionMarker(message)
  {
    if HasGreeting(message) then Greeting
    else if HasQuestionMarker(message) then Question
    else General
  }

  /**
   * The catalogue index the responder picks for `message`, `draw` being the
   * value of Math.random() used by the question and fallback branches.
   */
  function ReplyIndex(message: string, draw: real): (k: nat)
    requires 0.0 <= draw < 1.0
    ensures k < |MockResponses|
  {
    match Classify(message)
    case Greeting => 0
    case Question => (draw * (|MockResponses| - 1) as real).Floor + 1
    case General => (draw * |MockResponses| as real).Floor
  }

  /**
   * The reply text chosen for `message`: always a catalogue entry, the
   * greeting entry for a greeting and never the greeting entry for a
   * question.
   */
  function SelectReply(message: string, draw: real): (r: string)
    requires 0.0 <= draw < 1.0
    ensures r in MockResponses
    ensures HasGreeting(message) ==> r == MockResponses[0]
    ensures !HasGreeting(message) && HasQuestionMarker(message) ==> r != MockResponses[0]
  {
    MockResponses[ReplyIndex(message, draw)]
  }

  /** Greeting messages always get entry 0, whatever the draw and whatever else the message contains. */
  lemma GreetingReply(message: string, draw: real)
    requires 0.0 <= draw < 1.0
    requires HasGreeting(message)
    ensures ReplyIndex(message, draw) == 0
    ensures SelectReply(message, draw) == MockResponses[0]
  {
  }

  /** A question without a greeting gets one of entries 1..4, never the greeting reply. */
  lemma QuestionReply(message: string, draw: real)
    requires 0.0 <= draw < 1.0
    requires !HasGreeting(message) && HasQuestionMarker(message)
    ensures 1 <= ReplyIndex(message, draw) <= 4
    ensures SelectReply(message, draw) != MockResponses[0]
  {
  }

  /** Every entry 1..4 is picked by some draw on a question. */
  lemma QuestionVariantReachable(message: string, k: nat)
    requires !HasGreeting(message) && HasQuestionMarker(message)
    requires 1 <= k <= 4
    ensures exists draw :: 0.0 <= draw < 1.0 && ReplyIndex(message, draw) == k
  {
    var draw := (k - 1) as real / 4.0;
    assert ReplyIndex(message, draw) == k;
  }

  /** Every entry 0..4 is picked by some draw on a message that is neither greeting nor question. */
  lemma GeneralVariantReachable(message: string, k: nat)
    requires !HasGreeting(message) && !HasQuestionMarker(message)
    requires k < 5
    ensures exists draw :: 0.0 <= draw < 1.0 && ReplyIndex(message, draw) == k
  {
    var draw := k as real / 5.0;
    assert ReplyIndex(message, draw) == k;
  }

  /** Without an 'h' in either case, lower-casing cannot produce "hello". */
  lemma NoHelloWithoutH(s: string)
    requires 'h' !in s && 'H' !in s
    ensures !Contains(ToLower(s), "hello")
  {
    assert forall i :: 0 <= i < |s| ==> ToLower(s)[i] != 'h';
    FirstCharAbsent(ToLower(s), "hello");
  }

  /**
   * The lower-cased message holds "hello" exactly when the message itself
   * holds some word whose lower case is "hello".
   */
  lemma {:induction false} CaseInsensitiveHello(s: string)
    ensures Contains(ToLower(s), "hello") <==> exists i, w :: OccursAt(s, w, i) && ToLower(w) == "hello"
  {
    if Contains(ToLower(s), "hello") {
      var i :| OccursAt(ToLower(s), "hello", i);
      var w := s[i..i + 5];
      assert ToLower(w) == ToLower(s)[i..i + 5];
      assert OccursAt(s, w, i);
    }
    if exists i, w :: OccursAt(s, w, i) && ToLower(w) == "hello" {
      var i, w :| OccursAt(s, w, i) && ToLower(w) == "hello";
      LowerKeepsOccurrence(s, w, i);
    }
  }

  /** Lower-casing keeps an occurrence where it was. */
  lemma LowerKeepsOccurrence(s: string, t: string, i: int)
    requires OccursAt(s, t, i)
    ensures OccursAt(ToLower(s), ToLower(t), i)
  {
  }

  /** "hello" is matched in any mix of upper and lower case: any word whose lower case is "hello" makes a greeting. */
  lemma {:induction false} HelloInAnyCase(message: string, word: string, draw: real)
    requires 0.0 <= draw < 1.0
    requires Contains(message, word) && ToLower(word) == "hello"
    ensures Classify(message) == Greeting
    ensures SelectReply(message, draw) == MockResponses[0]
  {
    var i :| OccursAt(message, word, i);
    LowerKeepsOccurrence(message, word, i);
  }

  /** "你好" gets the greeting reply whatever the draw. */
  lemma NiHaoGetsGreeting(draw: real)
    requires 0.0 <= draw < 1.0
    ensures SelectReply("你好", draw) == MockResponses[0]
  {
  }

  /**
   * A message holding "吗" but none of the characters a greeting keyword
   * starts with ('h', 'H', '你', '您') is a question, so it never gets the
   * greeting reply; "这个方案可行吗？" is one such message.
   */
  lemma QuestionWithoutGreetingLetters(message: string, i: nat, draw: real)
    requires 0.0 <= draw < 1.0
    requires i < |message| && message[i] == '吗'
    requires 'h' !in message && 'H' !in message
    requires '你' !in message && '您' !in message
    ensures 1 <= ReplyIndex(message, draw) <= 4
  {
    assert message[i..i + 1] == "吗";
    assert OccursAt(message, "吗", i);
    NoHelloWithoutH(message);
    FirstCharAbsent(message, "你好");
    FirstCharAbsent(message, "您好");
    QuestionReply(message, draw);
  }

  /** The empty message falls through to the fallback branch, which can pick any entry. */
  lemma EmptyMessageAnyReply(k: nat)
    requires k < |MockResponses|
    ensures Classify("") == General
    ensures exists draw :: 0.0 <= draw < 1.0 && ReplyIndex("", draw) == k
  {
    assert !Contains("", "hello") && !Contains("", "?");
    GeneralVariantReachable("", k);
  }

  // ---------------------------------------------------------------------
  // Chunking
  // ---------------------------------------------------------------------

  /** `Math.floor(Math.random() * 3) + 1`. */
  function ChunkSize(draw: real): (n: int)
    requires 0.0 <= draw < 1.0
    ensures 1 <= n <= 3
  {
    (draw * 3.0).Floor + 1
  }

  function Min(a: int, b: int): int
  {
    if a <= b then a else b
  }

  /** The chunks joined in order. */
  function Concat(chunks: seq<string>): string
  {
    if chunks == [] then "" else chunks[0] + Concat(chunks[1..])
  }

  lemma {:induction false} ConcatAppend(chunks: seq<string>, c: string)
    ensures Concat(chunks + [c]) == Concat(chunks) + c
  {
    if chunks == [] {
      assert [c][1..] == [];
    } else {
      assert (chunks + [c])[1..] == chunks[1..] + [c];
      ConcatAppend(chunks[1..], c);
    }
  }

  /** One onChunk call per chunk, in order. */
  function ChunkEvents(chunks: seq<string>): (es: seq<Event>)
    ensures |es| == |chunks|
    ensures forall k :: 0 <= k < |chunks| ==> es[k] == Chunk(chunks[k])
  {
    if chunks == [] then [] else ChunkEvents(chunks[..|chunks| - 1]) + [Chunk(chunks[|chunks| - 1])]
  }

  /**
   * `sendMessage(message, onChunk)`. `draws(k)` is the Math.random() value
   * drawn for the k-th chunk and `hasCallback` says whether onChunk is a
   * function. Besides the reply it returns the chunks cut from it, the
   * interval ticks that fired and what the caller observed: one Chunk event
   * per onChunk call, then the resolution.
   */
  method SendMessage(message: string, variantDraw: real, draws: nat -> real, hasCallback: bool)
    returns (reply: string, chunks: seq<string>, ticks: nat, events: seq<Event>)
    requires 0.0 <= variantDraw < 1.0
    requires forall k :: 0.0 <= draws(k) < 1.0
    ensures reply == SelectReply(message, variantDraw)
    ensures chunks == Chunks(reply, draws, 0, 0)
    ensures Concat(chunks) == reply
    ensures forall k :: 0 <= k < |chunks| ==> 1 <= |chunks[k]| <= 3
    ensures forall k :: 0 <= k < |chunks| - 1 ==> |chunks[k]| == ChunkSize(draws(k))
    ensures |chunks| > 0 ==> |chunks[|chunks| - 1]| <= ChunkSize(draws(|chunks| - 1))
    ensures |reply| <= 3 * |chunks| && |chunks| <= |reply|
    ensures ticks == |chunks| + 1
    ensures events == (if hasCallback then ChunkEvents(chunks) else []) + [Resolve(Sent)]
  {
    reply := SelectReply(message, variantDraw);
    chunks, ticks, events := Stream(reply, draws, hasCallback);
    ChunksOfReply(reply, draws);
  }

  /**
   * The chunks the remaining ticks cut from `reply` when the cursor stands
   * at `index` and `k` chunk sizes have been drawn already: a tick with the
   * cursor inside the reply slices up to the drawn size (clamped at the
   * end) and advances the cursor by the drawn size.
   */
  function Chunks(reply: string, draws: nat -> real, index: nat, k: nat): (cs: seq<string>)
    requires forall j :: 0.0 <= draws(j) < 1.0
    ensures cs == [] <==> index >= |reply|
    decreases |reply| - index
  {
    if index >= |reply| then
      []
    else
      var size := ChunkSize(draws(k));
      [reply[index..Min(index + size, |reply|)]] + Chunks(reply, draws, index + size, k + 1)
  }

  /** The chunks tile what is left of the reply: no gap, no overlap, nothing reordered. */
  lemma {:induction false} ChunksTileReply(reply: string, draws: nat -> real, index: nat, k: nat)
    requires forall j :: 0.0 <= draws(j) < 1.0
    ensures Concat(Chunks(reply, draws, index, k)) == if index >= |reply| then "" else reply[index..]
    decreases |reply| - index
  {
    if index < |reply| {
      var size := ChunkSize(draws(k));
      var end := Min(index + size, |reply|);
      var rest := Chunks(reply, draws, index + size, k + 1);
      var cs := Chunks(reply, draws, index, k);
      ChunksTileReply(reply, draws, index + size, k + 1);
      assert cs == [reply[index..end]] + rest;
      assert cs[1..] == rest;
      assert Concat(cs) == reply[index..end] + Concat(rest);
      if index + size < |reply| {
        assert reply[index..] == reply[index..end] + reply[index + size..];
      } else {
        assert end == |reply|;
      }
    }
  }

  /**
   * Every chunk holds 1 to 3 characters, every chunk but the last exactly
   * its drawn size, and the last at most its drawn size (it is cut short
   * only by the end of the reply).
   */
  lemma {:induction false} ChunkLengths(reply: string, draws: nat -> real, index: nat, k: nat)
    requires forall j :: 0.0 <= draws(j) < 1.0
    ensures var cs := Chunks(reply, draws, index, k);
      && (forall j :: 0 <= j < |cs| ==> 1 <= |cs[j]| <= 3)
      && (forall j :: 0 <= j < |cs| - 1 ==> |cs[j]| == ChunkSize(draws(k + j)))
      && (|cs| > 0 ==> |cs[|cs| - 1]| <= ChunkSize(draws(k + |cs| - 1)))
    decreases |reply| - index
  {
    if index < |reply| {
      var size := ChunkSize(draws(k));
      var cs := Chunks(reply, draws, index, k);
      var rest := Chunks(reply, draws, index + size, k + 1);
      ChunkLengths(reply, draws, index + size, k + 1);
      assert cs == [cs[0]] + rest;
      assert index + size < |reply| ==> |cs[0]| == size && rest != [];
    }
  }

  /** For the n characters left there are between ceil(n/3) and n chunks. */
  lemma {:induction false} ChunkCount(reply: string, draws: nat -> real, index: nat, k: nat)
    requires forall j :: 0.0 <= draws(j) < 1.0
    ensures var left := if index >= |reply| then 0 else |reply| - index;
      left <= 3 * |Chunks(reply, draws, index, k)| <= 3 * left
    decreases |reply| - index
  {
    if index < |reply| {
      var size := ChunkSize(draws(k));
      ChunkCount(reply, draws, index + size, k + 1);
    }
  }

  /** What the ticks of one send cut from the whole reply. */
  lemma ChunksOfReply(reply: string, draws: nat -> real)
    requires forall k :: 0.0 <= draws(k) < 1.0
    ensures var chunks := Chunks(reply, draws, 0, 0);
      && Concat(chunks) == reply
      && (forall k :: 0 <= k < |chunks| ==> 1 <= |chunks[k]| <= 3)
      && (forall k :: 0 <= k < |chunks| - 1 ==> |chunks[k]| == ChunkSize(draws(k)))
      && (|chunks| > 0 ==> |chunks[|chunks| - 1]| <= ChunkSize(draws(|chunks| - 1)))
      && |reply| <= 3 * |chunks| && |chunks| <= |reply|
  {
    ChunksTileReply(reply, draws, 0, 0);
    ChunkLengths(reply, draws, 0, 0);
    ChunkCount(reply, draws, 0, 0);
  }

  /**
   * The interval loop of `sendMessage`. Each iteration is a tick that finds
   * the cursor `index` inside the reply and emits one chunk; the cursor
   * advances by the drawn size, so it may pass the end of the reply. The
   * tick after the last iteration finds it there, clears the interval and
   * resolves.
   */
  method Stream(reply: string, draws: nat -> real, hasCallback: bool)
    returns (chunks: seq<string>, ticks: nat, events: seq<Event>)
    requires forall k :: 0.0 <= draws(k) < 1.0
    ensures chunks == Chunks(reply, draws, 0, 0)
    ensures ticks == |chunks| + 1
    ensures events == (if hasCallback then ChunkEvents(chunks) else []) + [Resolve(Sent)]
    ensures events[|events| - 1] == Resolve(Sent)
    ensures forall i :: 0 <= i < |events| ==> (events[i].Resolve? <==> i == |events| - 1)
  {
    chunks, ticks, events := [], 0, [];
    var index: nat := 0;
    while index < |reply|
      invariant chunks + Chunks(reply, draws, index, |chunks|) == Chunks(reply, draws, 0, 0)
      invariant events == if hasCallback then ChunkEvents(chunks) else []
      invariant ticks == |chunks|
      decreases |reply| - index
    {
      ticks := ticks + 1;
      var chunkSize := ChunkSize(draws(|chunks|));
      var chunk := reply[index..Min(index + chunkSize, |reply|)];
      ghost var rest := Chunks(reply, draws, index + chunkSize, |chunks| + 1);
      assert Chunks(reply, draws, index, |chunks|) == [chunk] + rest;
      assert chunks + ([chunk] + rest) == (chunks + [chunk]) + rest;
      if hasCallback {
        assert (chunks + [chunk])[..|chunks|] == chunks;
        events := events + [Chunk(chunk)];
      }
      chunks := chunks + [chunk];
      index := index + chunkSize;
    }
    // The tick that finds index >= reply.length.
    ticks := ticks + 1;
    events := events + [Resolve(Sent)];
    ResolvedOnceAtEnd(chunks, hasCallback);
  }

  /** The resolution is observed exactly once, as the very last event: no onChunk call follows it. */
  lemma ResolvedOnceAtEnd(chunks: seq<string>, hasCallback: bool)
    ensures var events := (if hasCallback then ChunkEvents(chunks) else []) + [Resolve(Sent)];
      && events[|events| - 1] == Resolve(Sent)
      && forall i :: 0 <= i < |events| ==> (events[i].Resolve? <==> i == |events| - 1)
  {
  }
}
