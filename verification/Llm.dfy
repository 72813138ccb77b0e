/** Messages, tool calls and tool results (crates/workflow_engine/src/llm.rs). */
module Llm {
  import opened Common

  datatype ToolCall = ToolCall(id: string, name: string, arguments: string)

  datatype ToolResult = ToolResult(callId: string, content: string, isError: bool)

  datatype Message = Message(role: string, content: string, toolCalls: Option<seq<ToolCall>>, toolCallId: Option<string>)
}
