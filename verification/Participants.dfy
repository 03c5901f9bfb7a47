/**
 * The participants table as the server sees it. A nullable text column is a
 * `string` in which "" stands for SQL null: every use the server makes of such a
 * column (`x || ""`, `x || "control"`, `x?.toLowerCase() === "no"`, `!value`)
 * treats null and "" alike. Likewise a null chat column is the empty transcript.
 */
module Participants {
  import opened JsValues

  const CONTROL := "control"
  const EXPERIMENTAL := "experimental"

  /** One stored exchange of the chat: the round the client named, its message, the model's reply, the time stamp. */
  datatype Turn = Turn(round: int, userMessage: string, reply: string, ts: string)

  datatype Participant = Participant(
    id: string,
    consentAt: string,
    ageCategory: string,
    gender: string,
    nationality: string,
    education: string,
    occupation: string,
    recruitmentExperience: Value,
    recruitmentRole: string,
    attari: map<string, Value>,   // answers by question id; a null column is the empty map
    tai: map<string, Value>,
    screeningText: string,
    baselineUse: Value,
    condition: string,
    postUse: Value,
    postChange: string,
    completed: bool,
    chat: seq<Turn>)

  /** The table, keyed by participant id. */
  type Store = map<string, Participant>
}
