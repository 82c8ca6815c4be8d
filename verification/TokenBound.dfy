/**
 The byte-based bound on a request's input tokens
 (backend/src/modules/strategy/token-bound.ts).
 */
module TokenBound {
  import opened Options

  datatype Role = User | Assistant

  datatype Message = Message(role: Role, content: string)

  const PER_MESSAGE_OVERHEAD_TOKENS := 8
  const REQUEST_OVERHEAD_TOKENS := 64

  /** The first messageCount messages of a conversation cost at most `tokens`. */
  datatype KnownPrefix = KnownPrefix(messageCount: nat, tokens: nat)

  /** `Buffer.byteLength(s, "utf8")`. */
  function ByteLength(s: string): nat {
    if s == "" then 0
    else
      var c := s[0] as int;
      (if c < 0x80 then 1 else if c < 0x800 then 2 else if c < 0x1_0000 then 3 else 4) + ByteLength(s[1..])
  }

  /** The bytes of a character in UTF-8 (section 3 of RFC 3629). */
  function Utf8(c: char): (bytes: seq<int>)
    ensures bytes != [] && forall k :: 0 <= k < |bytes| ==> 0 <= bytes[k] < 0x100
  {
    var n := c as int;
    if n < 0x80 then [n]
    else if n < 0x800 then [0xC0 + n / 0x40, 0x80 + n % 0x40]
    else if n < 0x1_0000 then [0xE0 + n / 0x1000, 0x80 + n / 0x40 % 0x40, 0x80 + n % 0x40]
    else [0xF0 + n / 0x4_0000, 0x80 + n / 0x1000 % 0x40, 0x80 + n / 0x40 % 0x40, 0x80 + n % 0x40]
  }

  function Utf8Of(s: string): seq<int> {
    if s == "" then [] else Utf8(s[0]) + Utf8Of(s[1..])
  }

  /** The byte length is that of the UTF-8 encoding. */
  lemma {:induction false} ByteLengthIsUtf8(s: string)
    ensures ByteLength(s) == |Utf8Of(s)|
  {
    if s != "" {
      ByteLengthIsUtf8(s[1..]);
    }
  }

  /** A character's bytes tell where they end and which character it is. */
  lemma Utf8Apart(c: char, d: char, x: seq<int>, y: seq<int>)
    requires Utf8(c) + x == Utf8(d) + y
    ensures c == d && x == y
  {
    var a, b := Utf8(c) + x, Utf8(d) + y;
    assert a[0] == Utf8(c)[0] && b[0] == Utf8(d)[0];
    assert |Utf8(c)| == |Utf8(d)|;
    assert Utf8(c) == a[..|Utf8(c)|] && Utf8(d) == b[..|Utf8(d)|];
    assert x == a[|Utf8(c)|..] && y == b[|Utf8(d)|..];
    SameBytes(c, d);
  }

  lemma SameBytes(c: char, d: char)
    requires Utf8(c) == Utf8(d)
    ensures c == d
  {
    DecodeUtf8(c);
    DecodeUtf8(d);
    assert c as int == d as int;
  }

  /** The number of the character with these bytes. */
  function Decode(bytes: seq<int>): int {
    match |bytes|
    case 1 => bytes[0]
    case 2 => (bytes[0] - 0xC0) * 0x40 + (bytes[1] - 0x80)
    case 3 => (bytes[0] - 0xE0) * 0x1000 + (bytes[1] - 0x80) * 0x40 + (bytes[2] - 0x80)
    case 4 => (bytes[0] - 0xF0) * 0x4_0000 + (bytes[1] - 0x80) * 0x1000 + (bytes[2] - 0x80) * 0x40 + (bytes[3] - 0x80)
    case _ => 0
  }

  lemma DecodeUtf8(c: char)
    ensures Decode(Utf8(c)) == c as int
  {
    var n := c as int;
    assert n == n / 0x40 * 0x40 + n % 0x40;
    assert n / 0x40 == n / 0x1000 * 0x40 + n / 0x40 % 0x40;
    assert n / 0x1000 == n / 0x4_0000 * 0x40 + n / 0x1000 % 0x40;
  }

  lemma {:induction false} Utf8Injective(s: string, t: string)
    requires Utf8Of(s) == Utf8Of(t)
    ensures s == t
  {
    if s != "" && t != "" {
      Utf8Apart(s[0], t[0], Utf8Of(s[1..]), Utf8Of(t[1..]));
      Utf8Injective(s[1..], t[1..]);
      assert s == [s[0]] + s[1..] && t == [t[0]] + t[1..];
    }
  }

  function BytesFrom(messages: seq<Message>, i: nat): nat
    requires i <= |messages|
    decreases |messages| - i
  {
    if i == |messages| then 0
    else ByteLength(messages[i].content) + PER_MESSAGE_OVERHEAD_TOKENS + BytesFrom(messages, i + 1)
  }

  function UpperBound(messages: seq<Message>, known: Option<KnownPrefix>): nat {
    if known.Some? && known.value.messageCount <= |messages|
    then known.value.tokens + BytesFrom(messages, known.value.messageCount)
    else REQUEST_OVERHEAD_TOKENS + BytesFrom(messages, 0)
  }

  method InputTokenUpperBound(messages: seq<Message>, known: Option<KnownPrefix>) returns (total: nat)
    ensures total == UpperBound(messages, known)
  {
    var usable := if known.Some? && known.value.messageCount <= |messages| then known else None;
    total := if usable.Some? then usable.value.tokens else REQUEST_OVERHEAD_TOKENS;
    var i := if usable.Some? then usable.value.messageCount else 0;
    while i < |messages|
      invariant i <= |messages|
      invariant total + BytesFrom(messages, i) == UpperBound(messages, known)
    {
      total := total + ByteLength(messages[i].content) + PER_MESSAGE_OVERHEAD_TOKENS;
      i := i + 1;
    }
  }

  function KnownPrefixAfterReply(requestMessageCount: nat, promptTokens: nat, assistantContent: string): KnownPrefix {
    KnownPrefix(requestMessageCount + 1,
                promptTokens + ByteLength(assistantContent) + PER_MESSAGE_OVERHEAD_TOKENS)
  }

  /**
   A provider's real input count: any function of the conversation that starts
   within the request framing and grows, per message, by at most the message's
   bytes (a token covers at least one byte) and its framing.
   */
  ghost predicate RealCost(cost: seq<Message> -> nat) {
    && cost([]) <= REQUEST_OVERHEAD_TOKENS
    && forall ms, m :: cost(ms + [m]) <= cost(ms) + ByteLength(m.content) + PER_MESSAGE_OVERHEAD_TOKENS
  }

  /**
   A provider that counts each text by its tokenizer, and adds framing for each message
   and for the request. A token of a byte-level tokenizer covers at least one byte.
   */
  datatype Provider = Provider(tokens: string -> nat, framing: Role -> nat, request: nat)

  function InputTokens(v: Provider, messages: seq<Message>): nat {
    if messages == [] then v.request
    else
      var last := messages[|messages| - 1];
      InputTokens(v, messages[..|messages| - 1]) + v.tokens(last.content) + v.framing(last.role)
  }

  ghost predicate ByteLevel(v: Provider) {
    && v.request <= REQUEST_OVERHEAD_TOKENS
    && (forall role :: v.framing(role) <= PER_MESSAGE_OVERHEAD_TOKENS)
    && (forall text :: v.tokens(text) <= ByteLength(text))
  }

  /** Every such provider's count is one the bound is for. */
  lemma ByteLevelIsReal(v: Provider) returns (cost: seq<Message> -> nat)
    requires ByteLevel(v)
    ensures cost == (messages => InputTokens(v, messages)) && RealCost(cost)
  {
    cost := messages => InputTokens(v, messages);
    forall ms: seq<Message>, m: Message
      ensures cost(ms + [m]) <= cost(ms) + ByteLength(m.content) + PER_MESSAGE_OVERHEAD_TOKENS
    {
      assert (ms + [m])[..|ms + [m]| - 1] == ms;
    }
  }

  /** The known prefix lies inside the conversation and really costs no more than it says. */
  ghost predicate Sound(cost: seq<Message> -> nat, messages: seq<Message>, known: Option<KnownPrefix>) {
    known.Some? ==>
      && known.value.messageCount <= |messages|
      && cost(messages[..known.value.messageCount]) <= known.value.tokens
  }

  lemma {:induction false} CostOfSuffix(cost: seq<Message> -> nat, messages: seq<Message>, i: nat)
    requires RealCost(cost) && i <= |messages|
    ensures cost(messages) <= cost(messages[..i]) + BytesFrom(messages, i)
    decreases |messages| - i
  {
    if i == |messages| {
      assert messages[..i] == messages;
    } else {
      CostOfSuffix(cost, messages, i + 1);
      assert messages[..i + 1] == messages[..i] + [messages[i]];
    }
  }

  /** The bound is never below the real cost of the request. */
  lemma UpperBoundSound(cost: seq<Message> -> nat, messages: seq<Message>, known: Option<KnownPrefix>)
    requires RealCost(cost) && Sound(cost, messages, known)
    ensures cost(messages) <= UpperBound(messages, known)
  {
    if known.Some? {
      CostOfSuffix(cost, messages, known.value.messageCount);
    } else {
      CostOfSuffix(cost, messages, 0);
      assert messages[..0] == [];
    }
  }

  /** A sound prefix stays sound when turns are appended. */
  lemma SoundAppend(cost: seq<Message> -> nat, messages: seq<Message>, more: seq<Message>, known: Option<KnownPrefix>)
    requires Sound(cost, messages, known)
    ensures Sound(cost, messages + more, known)
  {
    if known.Some? {
      assert (messages + more)[..known.value.messageCount] == messages[..known.value.messageCount];
    }
  }

  /** After a reply the new prefix is sound, whatever text is echoed for the reply. */
  lemma AfterReplySound(cost: seq<Message> -> nat, request: seq<Message>, promptTokens: nat, echo: string)
    requires RealCost(cost) && cost(request) <= promptTokens
    ensures Sound(cost, request + [Message(Assistant, echo)],
                  Some(KnownPrefixAfterReply(|request|, promptTokens, echo)))
  {
    var all := request + [Message(Assistant, echo)];
    assert all[..|request| + 1] == all;
  }

  // ----- the bound is the least -----

  lemma {:induction false} BytesSplit(messages: seq<Message>, i: nat, j: nat)
    requires i <= j <= |messages|
    ensures BytesFrom(messages, i) == BytesFrom(messages[..j], i) + BytesFrom(messages, j)
    decreases j - i
  {
    if i < j {
      BytesSplit(messages, i + 1, j);
    }
  }

  lemma BytesAppend(messages: seq<Message>, m: Message)
    ensures BytesFrom(messages + [m], 0)
            == BytesFrom(messages, 0) + ByteLength(m.content) + PER_MESSAGE_OVERHEAD_TOKENS
  {
    BytesSplit(messages + [m], 0, |messages|);
    assert (messages + [m])[..|messages|] == messages;
    assert BytesFrom(messages + [m], |messages| + 1) == 0;
  }

  /** A provider that charges every byte and all framing, but for a discount of d tokens. */
  function Charged(d: nat, messages: seq<Message>): nat {
    var full := REQUEST_OVERHEAD_TOKENS + BytesFrom(messages, 0);
    if full < d then 0 else full - d
  }

  lemma ChargedIsReal(d: nat) returns (cost: seq<Message> -> nat)
    ensures RealCost(cost) && cost == (messages => Charged(d, messages))
  {
    cost := messages => Charged(d, messages);
    forall ms: seq<Message>, m: Message
      ensures cost(ms + [m]) <= cost(ms) + ByteLength(m.content) + PER_MESSAGE_OVERHEAD_TOKENS
    {
      BytesAppend(ms, m);
    }
  }

  /**
   No smaller bound would do: for any conversation, and any prefix known to cost what it may
   cost at all, some provider charges exactly the bound.
   */
  lemma UpperBoundIsTight(messages: seq<Message>, known: Option<KnownPrefix>) returns (cost: seq<Message> -> nat)
    requires known.Some? ==>
               && known.value.messageCount <= |messages|
               && known.value.tokens <= REQUEST_OVERHEAD_TOKENS + BytesFrom(messages[..known.value.messageCount], 0)
    ensures RealCost(cost) && Sound(cost, messages, known) && cost(messages) == UpperBound(messages, known)
  {
    if known.Some? {
      var prefix := messages[..known.value.messageCount];
      cost := ChargedIsReal(REQUEST_OVERHEAD_TOKENS + BytesFrom(prefix, 0) - known.value.tokens);
      BytesSplit(messages, 0, known.value.messageCount);
    } else {
      cost := ChargedIsReal(0);
    }
  }

  /** Such a provider: one whose tokens are bytes, and which uses all the framing it may. */
  const BYTES := Provider(ByteLength, _ => PER_MESSAGE_OVERHEAD_TOKENS, REQUEST_OVERHEAD_TOKENS)

  lemma OneMoreTurn(v: Provider, messages: seq<Message>, m: Message)
    ensures InputTokens(v, messages + [m]) == InputTokens(v, messages) + v.tokens(m.content) + v.framing(m.role)
  {
    assert (messages + [m])[..|messages|] == messages;
  }

  lemma {:induction false} BytesCount(messages: seq<Message>)
    ensures InputTokens(BYTES, messages) == REQUEST_OVERHEAD_TOKENS + BytesFrom(messages, 0)
    decreases |messages|
  {
    if messages != [] {
      var front, last := messages[..|messages| - 1], messages[|messages| - 1];
      BytesCount(front);
      BytesAppend(front, last);
      OneMoreTurn(BYTES, front, last);
      assert messages == front + [last];
    }
  }

  lemma BytesAreCharged(messages: seq<Message>)
    ensures ByteLevel(BYTES) && InputTokens(BYTES, messages) == UpperBound(messages, None)
  {
    BytesCount(messages);
  }

  /** Nor would a smaller one after a reply, whatever text is echoed for it. */
  lemma AfterReplyIsTight(request: seq<Message>, promptTokens: nat, echo: string) returns (cost: seq<Message> -> nat)
    requires promptTokens <= REQUEST_OVERHEAD_TOKENS + BytesFrom(request, 0)
    ensures var all := request + [Message(Assistant, echo)];
            && RealCost(cost) && cost(request) == promptTokens
            && cost(all) == UpperBound(all, Some(KnownPrefixAfterReply(|request|, promptTokens, echo)))
  {
    cost := ChargedIsReal(REQUEST_OVERHEAD_TOKENS + BytesFrom(request, 0) - promptTokens);
    BytesAppend(request, Message(Assistant, echo));
  }
}
