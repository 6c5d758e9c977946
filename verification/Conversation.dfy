/** The vocabulary of one model conversation: messages, tool calls, token usage and
    the replies a provider can give.  A run is judged against every possible provider,
    so the provider and the tools are streams of arbitrary answers. */
module Conversation {
  import opened Options

  const SYSTEM := "system"
  const USER := "user"
  const ASSISTANT := "assistant"
  const TOOL := "tool"

  datatype ToolCall = ToolCall(id: string, name: string, arguments: string)

  datatype Message = Message(role: string, content: string, toolCalls: seq<ToolCall>, toolCallId: string, name: string)

  datatype Usage = Usage(prompt: int, completion: int, total: int, cached: int)

  datatype QueryResult = QueryResult(query: string, summary: string, rowCount: int)

  /** What one provider call can come back with; only the first choice is ever read. */
  datatype Reply = CallFailed | NoChoices | Answered(message: Message, usage: Option<Usage>)

  /** What executing one tool call yields: text for the model, and rows when a query succeeded. */
  datatype ToolOutcome = ToolOutcome(text: string, result: Option<QueryResult>)

  /** The environment of a run: whether the context is cancelled when iteration i starts,
      the reply to provider call i, and the outcome of the j-th tool call of turn i. */
  datatype Oracle = Oracle(cancelled: nat -> bool, reply: nat -> Reply, tool: (nat, nat) -> ToolOutcome)

  function Plain(role: string, content: string): Message {
    Message(role, content, [], "", "")
  }

  const PUSH_BACK := Plain(USER, "You haven't finished investigating yet. Run at least one execute_sql query to verify before answering.")

  const NO_USAGE := Usage(0, 0, 0, 0)

  function AddUsage(u: Usage, v: Usage): Usage {
    Usage(u.prompt + v.prompt, u.completion + v.completion, u.total + v.total, u.cached + v.cached)
  }

  function ReplyUsage(r: Reply): Usage {
    if r.Answered? && r.usage.Some? then r.usage.value else NO_USAGE
  }

  /** The last n messages of a history. */
  function Tail(messages: seq<Message>, n: nat): (r: seq<Message>)
    ensures |r| <= n && |r| <= |messages| && r == messages[|messages| - |r|..]
    ensures |r| < n ==> r == messages
  {
    if |messages| <= n then messages else messages[|messages| - n..]
  }
}
