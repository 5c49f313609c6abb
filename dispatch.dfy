/**
 * `MCPHandler.handle_request`: maps a decoded JSON-RPC 2.0 request to the
 * response the server writes back, calling the human handler for the two
 * tools. Error codes follow section 5.1 of the JSON-RPC 2.0 specification:
 * -32601 (method not found) and -32603 (internal error).
 */
module Dispatch {

  import opened Wrappers
  import opened Correlation
  import opened Session

  /** The request's `id`, passed back unchanged; it may be absent. */
  datatype RequestId = NoId | NumberId(number: int) | TextId(text: string)

  /**
   * A request: its `method` (absent when the member is missing), and the
   * `name` and string `arguments` of its `params`.
   */
  datatype Request = Request(id: RequestId, methodName: Option<string>, toolName: Option<string>, arguments: map<string, string>)

  datatype Property = Property(name: string, kind: string, description: string)

  datatype Tool = Tool(name: string, description: string, properties: seq<Property>, required: seq<string>)

  datatype Payload =
    | ServerInfo(protocolVersion: string, listChanged: bool, serverName: string, serverVersion: string)
    | ToolList(tools: seq<Tool>)
    | TextContent(text: string)

  datatype Response =
    | Result(id: RequestId, payload: Payload)
    | Error(id: RequestId, code: int, message: string)

  const MethodNotFound: int := -32601
  const InternalError: int := -32603

  const Initialize: string := "initialize"
  const Initialized: string := "notifications/initialized"
  const ListTools: string := "tools/list"
  const CallTool: string := "tools/call"
  const AskHumanTool: string := "ask_human"
  const ReportTool: string := "report_to_human"

  const Reported: string := "Message reported successfully"

  const InitializeResult: Payload :=
    ServerInfo("2024-11-05", true, "human-in-the-loop", "1.0.0")

  const Tools: seq<Tool> := [
    Tool(AskHumanTool, "Ask a human for information that only they would know",
         [Property("question", "string", "The question to ask the human")], ["question"]),
    Tool(ReportTool, "Report a message to human without waiting for response",
         [Property("message", "string", "Message to report"),
          Property("timeout", "number", "Timeout in seconds (default: 3)")], ["message"])
  ]

  /** Where a request goes. */
  datatype Destination =
    | Handshake
    | Acknowledge
    | Listing
    | AskHuman(question: string)
    | ReportToHuman(message: string)
    | Unknown(methodText: string)

  /** `arguments.get(key, "")`. */
  function Argument(arguments: map<string, string>, key: string): (value: string)
    ensures key !in arguments ==> value == ""
    ensures key in arguments ==> value == arguments[key]
  {
    if key in arguments then arguments[key] else ""
  }

  /** How `f"{method}"` renders the method: a missing one reads "None". */
  function MethodText(name: Option<string>): (text: string)
    ensures name.Some? ==> text == name.value
    ensures name.None? ==> text == "None"
  {
    match name
    case Some(m) => m
    case None => "None"
  }

  function Route(req: Request): (route: Destination)
    ensures route == Handshake <==> req.methodName == Some(Initialize)
    ensures route == Acknowledge <==> req.methodName == Some(Initialized)
    ensures route == Listing <==> req.methodName == Some(ListTools)
    ensures route.AskHuman? <==> req.methodName == Some(CallTool) && req.toolName == Some(AskHumanTool)
    ensures route.ReportToHuman? <==> req.methodName == Some(CallTool) && req.toolName == Some(ReportTool)
    ensures route.AskHuman? ==> route.question == Argument(req.arguments, "question")
    ensures route.ReportToHuman? ==> route.message == Argument(req.arguments, "message")
    ensures route.Unknown? ==> route.methodText == MethodText(req.methodName)
  {
    if req.methodName == Some(Initialize) then Handshake
    else if req.methodName == Some(Initialized) then Acknowledge
    else if req.methodName == Some(ListTools) then Listing
    else if req.methodName == Some(CallTool) && req.toolName == Some(AskHumanTool) then
      AskHuman(Argument(req.arguments, "question"))
    else if req.methodName == Some(CallTool) && req.toolName == Some(ReportTool) then
      ReportToHuman(Argument(req.arguments, "message"))
    else Unknown(MethodText(req.methodName))
  }

  /** A call to an unknown tool is answered like an unknown method, naming "tools/call". */
  lemma UnknownToolIsUnknownMethod(req: Request)
    requires req.methodName == Some(CallTool)
    requires req.toolName != Some(AskHumanTool) && req.toolName != Some(ReportTool)
    ensures Route(req) == Unknown(CallTool)
  {
  }

  /** The response to a request that calls no tool. */
  function FixedReply(req: Request): (response: Option<Response>)
    requires !Route(req).AskHuman? && !Route(req).ReportToHuman?
    ensures response.None? <==> req.methodName == Some(Initialized)
    ensures response.Some? ==> response.value.id == req.id
    ensures req.methodName == Some(Initialize) ==> response == Some(Result(req.id, InitializeResult))
    ensures req.methodName == Some(ListTools) ==> response == Some(Result(req.id, ToolList(Tools)))
    ensures Route(req).Unknown? ==>
              response == Some(Error(req.id, MethodNotFound, "Unknown method: " + MethodText(req.methodName)))
  {
    match Route(req)
    case Handshake => Some(Result(req.id, InitializeResult))
    case Acknowledge => None
    case Listing => Some(Result(req.id, ToolList(Tools)))
    case Unknown(text) => Some(Error(req.id, MethodNotFound, "Unknown method: " + text))
  }

  /** `ask_human` always answers with a text result: `ask` reports its own failures as text. */
  function AskReply(id: RequestId, answer: string): (response: Response)
    ensures response.Result? && response.id == id && response.payload == TextContent(answer)
  {
    Result(id, TextContent(answer))
  }

  /** `report_to_human` answers with the fixed text, or with an internal error naming the exception. */
  function ReportReply(id: RequestId, raised: Option<string>): (response: Response)
    ensures response.id == id
    ensures response.Error? <==> raised.Some?
    ensures raised.None? ==> response.payload == TextContent(Reported)
    ensures raised.Some? ==> response.code == InternalError && response.message == "Internal error: " + raised.value
  {
    match raised
    case None => Result(id, TextContent(Reported))
    case Some(e) => Error(id, InternalError, "Internal error: " + e)
  }

  /** Every error the server answers with is one of the two JSON-RPC codes it uses. */
  lemma ErrorCodes(req: Request, answer: string, raised: Option<string>)
    ensures var response :=
              match Route(req)
              case AskHuman(_) => Some(AskReply(req.id, answer))
              case ReportToHuman(_) => Some(ReportReply(req.id, raised))
              case _ => FixedReply(req);
            response.Some? && response.value.Error? ==>
              && (response.value.code == MethodNotFound || response.value.code == InternalError)
              && (response.value.code == InternalError <==> Route(req).ReportToHuman?)
  {
  }

  class McpHandler {
    const human: HumanInDiscord

    constructor(human: HumanInDiscord)
      ensures this.human == human
    {
      this.human := human;
    }

    /**
     * `handle_request`. `env` and `inbound` stand for what Discord answers
     * while a tool runs (see `HumanInDiscord.Ask`).
     */
    method HandleRequest(req: Request, env: Discord, inbound: seq<Message>) returns (response: Option<Response>)
      requires human.Valid()
      modifies human, human.bot.table
      ensures human.Valid()
      ensures !Route(req).AskHuman? && !Route(req).ReportToHuman? ==>
                && response == FixedReply(req)
                && unchanged(human) && unchanged(human.bot.table)
      ensures Route(req).AskHuman? && !env.userFound ==>
                response == Some(AskReply(req.id, UserMissing(human.userId)))
      ensures Route(req).AskHuman? && env.userFound ==>
                var failure := PublishError(Reusable(old(human.threadId), env), human.channelId, env);
                && (failure.Some? ==> response == Some(AskReply(req.id, "Error: " + failure.value)))
                && (failure.None? ==>
                      && human.threadId.Some?
                      && response == Some(AskReply(req.id,
                           match FirstReply(inbound, human.bot.targets, human.threadId.value)
                           case Some(reply) => reply
                           case None => TimeoutAnswer)))
      ensures Route(req).ReportToHuman? ==>
                response == Some(ReportReply(req.id,
                  if env.userFound then PublishError(Reusable(old(human.threadId), env), human.channelId, env)
                  else None))
      ensures Route(req).ReportToHuman? ==> unchanged(human.bot.table)
      ensures (Route(req).AskHuman? || Route(req).ReportToHuman?) && !env.userFound ==> unchanged(human)
      ensures Route(req).AskHuman? && env.userFound ==>
                var question := Route(req).question;
                var acquired := Acquire(old(human.Thread()), question, env);
                var history := old(human.conversationHistory);
                && (PublishError(Reusable(old(human.threadId), env), human.channelId, env).Some? ==>
                      && human.conversationHistory == history + [question]
                      && human.posts == old(human.posts)
                      && human.Thread() == acquired)
                && (PublishError(Reusable(old(human.threadId), env), human.channelId, env).None? ==>
                      && acquired.threadId.Some?
                      && human.posts == old(human.posts) + [Post(acquired.threadId.value, question)]
                      && var reply := FirstReply(inbound, human.bot.targets, acquired.threadId.value);
                      && (reply.Some? ==>
                            && human.conversationHistory == history + [question, reply.value]
                            && human.Thread() == AfterCount(acquired, human.conversationHistory, env))
                      && (reply.None? ==>
                            && human.conversationHistory == history + [question]
                            && human.Thread() == acquired))
      ensures Route(req).ReportToHuman? && env.userFound ==>
                var message := Route(req).message;
                var acquired := Acquire(old(human.Thread()), message, env);
                && human.conversationHistory == old(human.conversationHistory) + [message]
                && (PublishError(Reusable(old(human.threadId), env), human.channelId, env).Some? ==>
                      && human.posts == old(human.posts)
                      && human.Thread() == acquired)
                && (PublishError(Reusable(old(human.threadId), env), human.channelId, env).None? ==>
                      && acquired.threadId.Some?
                      && human.posts == old(human.posts) + [Post(acquired.threadId.value, message)]
                      && human.Thread() == AfterCount(acquired, human.conversationHistory, env))
    {
      match Route(req) {
        case AskHuman(question) =>
          var answer := human.Ask(question, env, inbound);
          response := Some(AskReply(req.id, answer));
        case ReportToHuman(message) =>
          var raised := human.ReportMessage(message, env);
          response := Some(ReportReply(req.id, raised));
        case _ =>
          response := FixedReply(req);
      }
    }
  }
}
