/**
 * Messages of a conversation transcript, as the chat library keeps them:
 * a role, a text content, the tool invocations an assistant reply asks
 * for, and the token usage the service reported for it.
 */
module Messages {
  import opened Options

  datatype Role = System | User | Assistant | Tool

  /** One tool invocation requested by an assistant reply. */
  datatype ToolCall = ToolCall(id: string, name: string, arguments: string)

  /**
   * Token counts reported by the service. An absent count is 0, as
   * `nil.to_i` is in the source.
   */
  datatype Usage = Usage(input: nat, output: nat, cached: nat)

  const NoUsage := Usage(0, 0, 0)

  datatype Message = Message(role: Role, content: string, toolCalls: seq<ToolCall>, usage: Usage)
  {
    /** The library's `tool_call?`: the reply asks for at least one tool. */
    predicate IsToolCall() { |toolCalls| > 0 }
  }

  /** A user-role message with no tool calls and no usage. */
  function UserMessage(content: string): (m: Message)
    ensures m.role == User && m.content == content && !m.IsToolCall()
  {
    Message(User, content, [], NoUsage)
  }

  /** Number of system-role messages in a transcript. */
  function SystemCount(ms: seq<Message>): (n: nat)
    ensures n <= |ms|
  {
    if ms == [] then 0
    else (if ms[|ms| - 1].role == System then 1 else 0) + SystemCount(ms[..|ms| - 1])
  }

  /** The transcript invariant: at most one system message. */
  predicate SingleSystem(ms: seq<Message>) { SystemCount(ms) <= 1 }

  /** Counting system messages distributes over concatenation. */
  lemma {:induction false} SystemCountAppend(a: seq<Message>, b: seq<Message>)
    ensures SystemCount(a + b) == SystemCount(a) + SystemCount(b)
    decreases |b|
  {
    if b == [] {
      assert a + b == a;
    } else {
      var last := b[|b| - 1];
      assert (a + b)[..|a + b| - 1] == a + b[..|b| - 1];
      assert (a + b)[|a + b| - 1] == last;
      SystemCountAppend(a, b[..|b| - 1]);
    }
  }

  /** A transcript with no system messages counts none. */
  lemma {:induction false} NoSystemCountsZero(ms: seq<Message>)
    requires forall i :: 0 <= i < |ms| ==> ms[i].role != System
    ensures SystemCount(ms) == 0
    decreases |ms|
  {
    if ms != [] {
      NoSystemCountsZero(ms[..|ms| - 1]);
    }
  }

  /**
   * The messages of a freshly created chat: `with_instructions` adds one
   * system message when instructions are given, and nothing otherwise.
   */
  function Seed(instructions: Option<string>): (ms: seq<Message>)
    ensures SystemCount(ms) == (if instructions.Some? then 1 else 0)
    ensures instructions.None? ==> ms == []
    ensures instructions.Some? ==> ms == [Message(System, instructions.value, [], NoUsage)]
  {
    match instructions
    case None => []
    case Some(text) => [Message(System, text, [], NoUsage)]
  }
}
