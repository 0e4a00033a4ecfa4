/** The alerting plane's rows, endpoints and containment actions, as the engine reads them. */
module AlertModel {
  import opened Wrappers
  import opened Text

  const MAX_INT64: int := 0x7fff_ffff_ffff_ffff
  const MIN_INT64: int := -0x8000_0000_0000_0000

  type Millis = t: int | MIN_INT64 <= t <= MAX_INT64

  /** A 64-bit sum of two 64-bit numbers wraps round. */
  function Wrap(x: int): Millis
    requires MIN_INT64 + MIN_INT64 <= x <= MAX_INT64 + MAX_INT64
  {
    if x > MAX_INT64 then x - 0x1_0000_0000_0000_0000
    else if x < MIN_INT64 then x + 0x1_0000_0000_0000_0000 else x
  }

  const ACT_NOW := "act-now"
  const REVIEW := "review"
  const QUIET := "handled"
  const UNSCORED := ""
  const STATE_OPEN := "open"

  /** Worst first; a lane the engine does not know ranks with the quiet one. */
  function LaneRank(lane: string): nat {
    if lane == ACT_NOW then 0 else if lane == REVIEW then 1 else if lane == UNSCORED then 2 else 3
  }

  /** Address reading is given; a text that is no address equals none. */
  type Parse = string -> Option<Addr>

  predicate SameAddress(parse: Parse, a: string, b: string) {
    parse(a).Some? && parse(a) == parse(b)
  }

  /** What the account's listing says of an endpoint. */
  datatype Endpoint = Endpoint(known: bool, connectivity: string, agent: string, title: string, fqdn: string) {
    predicate Offline() {
      known && connectivity == "offline"
    }
  }

  datatype Row = Row(
    agent: string, address: string, id: string, technique: string, title: string, lane: string, state: string,
    score: Option<real>, firstSeen: Millis, ack: string, ackAt: Option<Millis>, assignee: string)
  {
    predicate Held() {
      ack != "" || assignee != ""
    }

    /** Who has it: the one it is assigned to, or who acknowledged it. */
    function Holder(): string {
      if assignee != "" then assignee else ack
    }

    function Subject(): string {
      if agent == "" then address else agent
    }

    function Condition(): string {
      if technique == "" then id else technique
    }

    /** What a person says the row by: its agent, or its address when it has none, and its condition. */
    function Ref(): string {
      if Subject() == "" then Condition() else Subject() + "/" + Condition()
    }
  }
}
