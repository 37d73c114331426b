/** Answering a card: the rating token chooses one of the four candidate
    scheduling states the scheduler computed for the card, and the answer
    record forwards that candidate and the card's current state unchanged.
    Scheduling states are opaque: the type parameter `S`. */
module Answer {
  import opened Util

  datatype Rating = Again | Hard | Good | Easy

  /** What the scheduler offers for a card: its current state and one
      candidate next state per rating. */
  datatype NextCardStates<S> = NextCardStates(current: S, again: S, hard: S, good: S, easy: S)

  /** Milliseconds taken, an unsigned 32-bit count. */
  type U32 = x: int | 0 <= x < 0x1_0000_0000

  /** The record submitted to the collection to finish an answer. */
  datatype CardAnswer<S> = CardAnswer(
    cardId: int,
    currentState: S,
    newState: S,
    rating: Rating,
    answeredAt: int,
    millisecondsTaken: U32)

  /** The text listing the accepted answers, quoted in error messages. */
  const AnswerValues: string := "[\"again\", \"1\", \"hard\", \"2\", \"good\", \"3\", \"easy\", \"4\"]"

  /** The accepted answer tokens: a name and a digit for each rating. */
  const AcceptedTokens: seq<string> := ["again", "1", "hard", "2", "good", "3", "easy", "4"]

  /** The ratings in the order their tokens appear in `AcceptedTokens`. */
  const RatingsInOrder: seq<Rating> := [Again, Hard, Good, Easy]

  /** The scheduler's candidate for a rating. */
  function Candidate<S>(states: NextCardStates<S>, rating: Rating): (s: S)
    ensures s == [states.again, states.hard, states.good, states.easy][Index(rating)]
  {
    match rating
    case Again => states.again
    case Hard => states.hard
    case Good => states.good
    case Easy => states.easy
  }

  /** The match on the answer token: the chosen candidate and its rating, or
      `InvalidParam` naming the token and the accepted values. */
  function ChooseState<S>(states: NextCardStates<S>, token: string): (r: Result<(S, Rating), Error>)
    ensures r.Ok? <==> token in AcceptedTokens
    ensures forall i | 0 <= i < |AcceptedTokens| && AcceptedTokens[i] == token ::
      r == Ok((Candidate(states, RatingsInOrder[i / 2]), RatingsInOrder[i / 2]))
    ensures r.Err? ==> r.error == InvalidParam(token, AnswerValues)
  {
    if token == "again" || token == "1" then Ok((states.again, Again))
    else if token == "hard" || token == "2" then Ok((states.hard, Hard))
    else if token == "good" || token == "3" then Ok((states.good, Good))
    else if token == "easy" || token == "4" then Ok((states.easy, Easy))
    else Err(InvalidParam(token, AnswerValues))
  }

  /** The tokens that select a rating are exactly its name and its digit. */
  lemma TokensOfRating<S>(states: NextCardStates<S>, token: string, rating: Rating)
    ensures (ChooseState(states, token).Ok? && ChooseState(states, token).value.1 == rating) <==>
      token in AcceptedTokens[2 * Index(rating)..2 * Index(rating) + 2]
  {
  }

  /** The position of a rating in `RatingsInOrder`. */
  function Index(rating: Rating): (k: nat)
    ensures k < |RatingsInOrder| && RatingsInOrder[k] == rating
  {
    match rating
    case Again => 0
    case Hard => 1
    case Good => 2
    case Easy => 3
  }

  /** `answer`: fetch the card's states (`statesOf` stands for the
      scheduler), choose by token, and build the record to submit, stamped
      with the caller's clock reading `now`. An unknown token fails before
      any record exists. */
  function AnswerCard<S>(
    cardId: int,
    statesOf: int -> NextCardStates<S>,
    token: string,
    millisecondsTaken: U32,
    now: int): (r: Result<CardAnswer<S>, Error>)
    ensures r.Err? <==> token !in AcceptedTokens
    ensures r.Err? ==> r.error == InvalidParam(token, AnswerValues)
    ensures r.Ok? ==>
      && r.value.cardId == cardId
      && r.value.currentState == statesOf(cardId).current
      && r.value.newState == Candidate(statesOf(cardId), r.value.rating)
      && r.value.answeredAt == now
      && r.value.millisecondsTaken == millisecondsTaken
    ensures forall i | 0 <= i < |AcceptedTokens| && AcceptedTokens[i] == token ::
      r.Ok? && r.value.rating == RatingsInOrder[i / 2]
  {
    var states := statesOf(cardId);
    match ChooseState(states, token)
    case Err(e) => Err(e)
    case Ok((newState, rating)) =>
      Ok(CardAnswer(cardId, states.current, newState, rating, now, millisecondsTaken))
  }
}
