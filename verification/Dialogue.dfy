/** Conversation turns, the excerpts quoted from them, and the characters excerpts take. */
module Dialogue {
  import opened Wrappers

  datatype ChatTurn = ChatTurn(
    id: string,
    sessionId: string,
    userMessage: string,
    answer: string,
    interpretationId: Option<string>,
    claimId: Option<string>,
    supersededBy: Option<string>)

  datatype Excerpt = Excerpt(turnId: string, userMessage: string, assistantAnswer: string,
                             interpretationId: Option<string>)

  /** An optional text counts as given only when it is present and not empty. */
  predicate Given(text: Option<string>) {
    text.Some? && text.value != ""
  }

  function Quote(turn: ChatTurn, answer: string): Excerpt {
    Excerpt(turn.id, turn.userMessage, answer, turn.interpretationId)
  }

  function Size(e: Excerpt): nat {
    |e.userMessage| + |e.assistantAnswer|
  }

  /** The first `n` characters, or all of a shorter text. */
  function Shortened(text: string, n: nat): string {
    if n < |text| then text[..n] else text
  }
}
