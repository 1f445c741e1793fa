// What a chat-completions endpoint can answer, as the callers observe it.

module Http {
  import opened Wrappers

  /** What `response.json()` made of a successful response: an exception
      (the body is not JSON); the value `null`, on which both callers then
      read `data.usage` and throw a `TypeError` (its message is the
      engine's); or any other value, whose
      `data?.choices?.[0]?.message?.content` is a string or is missing
      (`None` covers `null`, `undefined` and a missing path). */
  datatype JsonBody = Malformed(message: string) | NullData(usageError: string) | Parsed(content: Option<string>)

  /** The outcome of the `fetch` call: the request was rejected with an
      error, the response was not `ok` (with its status and body text), or
      it was `ok` and its body was read as JSON. */
  datatype Upstream =
    | FetchFailed(message: string)
    | NotOk(status: nat, text: string)
    | Answered(body: JsonBody)
}
