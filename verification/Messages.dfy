/** Conversation messages and tool calls, as every component passes them around. */
module Messages {
  import opened JsonValue
  import opened Prelude

  datatype ToolCall = ToolCall(id: string, name: string, arguments: string)
  datatype ToolOutput = ToolOutput(content: Value, isError: bool, structured: Option<Value>)
  datatype ToolResult = ToolResult(
    toolCallId: string, name: string, content: Value, isError: bool, structured: Option<Value>)

  datatype Role = System | User | Assistant | Tool

  /** Image, JSON and file parts carry no text. */
  datatype Part = TextPart(text: string) | OtherPart(data: string)

  datatype Content = Plain(text: string) | Parts(parts: seq<Part>)

  datatype Message = Message(
    role: Role, content: Option<Content>, toolCalls: seq<ToolCall>, toolResult: Option<ToolResult>)

  predicate MessageValid(m: Message) {
    m.role.Tool? ==> m.toolResult.Some?
  }

  function UserMessage(text: string): Message { Message(User, Some(Plain(text)), [], None) }
  function AssistantMessage(text: string): Message { Message(Assistant, Some(Plain(text)), [], None) }
  function AssistantWithTools(content: Option<Content>, calls: seq<ToolCall>): Message {
    Message(Assistant, content, calls, None)
  }
  function ToolMessage(result: ToolResult): Message { Message(Tool, None, [], Some(result)) }

  /** The text of a plain body; a body in parts has none. */
  function TextOf(m: Message): string {
    if m.content.Some? && m.content.value.Plain? then m.content.value.text else ""
  }
}
