/**
 * What the two endpoints hand back to Flask, and the trace of the oracles
 * they consulted on the way.
 */
module Replies {
  import opened Wrappers
  import opened PyDict
  import opened Services

  /**
   * `jsonify(body), status`, or an exception that escaped the view function
   * (Flask turns it into its own error page).
   */
  datatype Reply =
    | Reply(status: nat, body: Dict<string>)
    | Uncaught(cause: string)

  /** One consultation of an oracle, in the order the endpoint made them. */
  datatype Call =
    | CatalogRequest
    | PageRequest(url: string)
    | GenerateRequest(prompt: string)

  /** `jsonify({"error": message}), status` */
  function ErrorReply(status: nat, message: string): (r: Reply)
    ensures r.Reply? && r.status == status
    ensures r.body.HasKey("error") && r.body.Get("error") == message && |r.body.items| == 1
  {
    Reply(status, Single("error", message))
  }

  /** `jsonify({"response": text})`, with Flask's default status 200. */
  function ResponseReply(text: string): (r: Reply)
    ensures r.Reply? && r.status == 200
    ensures r.body.HasKey("response") && r.body.Get("response") == text && |r.body.items| == 1
  {
    Reply(200, Single("response", text))
  }

  /**
   * Python's `not x` on a field read with `request.json.get`: the field is
   * absent (or JSON `null`) or the empty string.
   */
  predicate Blank(field: Option<string>)
  {
    field.None? || field.value == ""
  }

  /** The page fetches for `urls`, in order. */
  function PageRequests(urls: seq<string>): (calls: seq<Call>)
    ensures |calls| == |urls|
    ensures forall i :: 0 <= i < |urls| ==> calls[i] == PageRequest(urls[i])
  {
    seq(|urls|, i requires 0 <= i < |urls| => PageRequest(urls[i]))
  }
}
