/** The dataset entities of US_Elections/Models, as immutable values.
    Display-only fields (TermStart, TermEnd, Image, ImageFull, StateName)
    never take part in a computation and are not carried. */
module Models {

  /** Candidate.cs: identity, display name and free-text party label. */
  datatype Candidate = Candidate(id: int, name: string, party: string)

  /** One candidate's tally in one state: `ID` refers to a candidate of the
      same election by identity, `E` is the electoral and `V` the popular vote. */
  datatype StateResult = StateResult(id: int, electoral: int, popular: int)

  /** State.cs: the abbreviation `S` and the result rows `R`. */
  datatype State = State(abbreviation: string, results: seq<StateResult>)

  /** Election.cs: one year's contest. */
  datatype Election = Election(year: int, hasVotes: bool, candidates: seq<Candidate>, states: seq<State>)
}
