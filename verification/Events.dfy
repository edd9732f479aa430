/** The record a thread's log is made of (internal/event/event.go). Detail holds the kind-specific
fields already read out of the untyped map the source keeps them in; checkpoints pairs each repository with its
operation, in repository order. */
module Events {
  import opened Outcomes

  datatype Kind =
    | User | Agent | ToolCall | Gate | Permission | StateChange | ErrorRow | LedgerRow | UsageRow
    | CycleRow | HypothesisRow | Goal | Finish | Archive | Review

  datatype State = Idle | Working | Gating | NeedsInput | Blocked | Failed | Done

  datatype Usage = Usage(input: int, output: int, cacheRead: int, timings: Option<int>)

  datatype Detail = Detail(
    usage: Option<Usage>,
    served: Option<(string, string)>,
    archived: Option<bool>,
    tokensSaved: Option<int>,
    phase: Option<string>,
    checkpoints: seq<(string, string)>)

  datatype Event = Event(
    seqNo: nat,
    threadID: string,
    at: int,
    kind: Kind,
    text: string,
    tool: string,
    state: State,
    changes: seq<string>,
    detail: Detail)
}
