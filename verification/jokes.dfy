/**
 * `fetch_joke`: one GET against the joke API, with an empty result replaced
 * by a canned joke.
 */
module Jokes {
  import opened Wrappers
  import opened Http

  /** A joke as the API returns it (`type` is a Rust keyword, hence `kind`). */
  datatype Joke = Joke(id: nat, kind: string, setup: string, punchline: string)

  /** `JokeError`: its only variant wraps the request error. */
  datatype JokeError = Request(cause: RequestError)

  /** The default joke's text, kept exactly as the source spells it. */
  const DefaultJokeText: string := "à¦œà§‹à¦• à¦ªà¦¾à¦‡à¦¤à§‡à¦¸à¦¿ à¦¨à¦¾, à¦¸à¦¬ à¦«à§à¦°à¦¨à§à¦Ÿà¦à¦¨à§à¦¡à§‡à¦° à¦¦à§‹à¦·! ðŸ˜¤"

  const DefaultJoke: Joke := Joke(0, "default", DefaultJokeText, DefaultJokeText)

  /**
   * `fetch_joke`, given the outcome of the GET on the joke API's fixed URL,
   * decoded as a JSON array of jokes. `error_for_status` rejects 4xx and 5xx
   * only.
   */
  function FetchJoke(response: HttpOutcome<seq<Joke>>): (r: Result<seq<Joke>, JokeError>)
    ensures r.Ok? ==> |r.value| > 0
    ensures r.Err? <==> || response.TransportFailed?
                        || IsClientOrServerError(response.code)
                        || response.decoded.None?
    ensures r.Ok? ==> r.value == if response.decoded.value == [] then [DefaultJoke] else response.decoded.value
  {
    match response
    case TransportFailed => Err(Request(Transport))
    case Received(code, _, decoded) =>
      if IsClientOrServerError(code) then Err(Request(BadStatus(code)))
      else
        match decoded
        case None => Err(Request(Undecodable))
        case Some(jokes) => if |jokes| == 0 then Ok([DefaultJoke]) else Ok(jokes)
  }

  /** An error status fails the fetch whatever the body holds: no default joke. */
  lemma ErrorStatusFails(code: StatusCode, reason: string, decoded: Option<seq<Joke>>)
    requires IsClientOrServerError(code)
    ensures FetchJoke(Received(code, reason, decoded)) == Err(Request(BadStatus(code)))
  {
  }

  /** An empty array yields exactly the default joke: id 0, type "default", setup equal to punchline. */
  lemma EmptyArrayYieldsDefault(code: StatusCode, reason: string)
    requires !IsClientOrServerError(code)
    ensures var r := FetchJoke(Received(code, reason, Some([])));
            && r.Ok? && |r.value| == 1
            && r.value[0].id == 0 && r.value[0].kind == "default"
            && r.value[0].setup == r.value[0].punchline
  {
  }
}
