/** The chunks that the provider hands to the engine (src/capix-provider.ts). */
module ProviderTypes {
  import opened Wrappers

  datatype RetryClass = NoRetry | Retry | RetryAfter

  // `amount` is an integer string in units of 10^-scale.
  datatype Cost = Cost(amount: string, asset: string, scale: int)

  datatype ToolFunction = ToolFunction(name: Option<string>, arguments: Option<string>)

  datatype ProviderChunk =
    | Route(receiptId: string, model: string, region: string, privacyClass: string)
    | TextDelta(delta: string)
    | ReasoningDelta(delta: string)
    | ToolDelta(toolCallId: string, index: int, fn: Option<ToolFunction>)
    | Usage(input: int, output: int, cacheRead: Option<int>, cacheWrite: Option<int>, cost: Option<Cost>)
    | Finish(finishReason: string, receiptId: string, retryCount: Option<int>)
    | ErrorChunk(error: StreamError)

  datatype StreamError = StreamError(
    capixCode: string, message: string, supportId: Option<string>,
    retryClass: Option<RetryClass>, retryAfterMs: Option<int>)

  // How a stream of chunks comes to its end.
  datatype Ending = Completed | Failed(error: StreamError)

  predicate IsTerminal(c: ProviderChunk) {
    c.Finish? || c.ErrorChunk?
  }
}
