/** The client's view of the HTTP transport. A request the client makes is
    recorded as a `Request` value; what the transport does with it is an
    input `Outcome`. */
module Http {
  import opened Wrappers
  import opened JsonValue

  const HTTP_CODE_OK: int := 200
  const HTTP_CODE_NO_CONTENT: int := 204
  const HTTP_CODE_CONFLICT: int := 409

  datatype Method = GET | POST

  datatype Header = Header(name: string, value: string)

  datatype Body =
    | NoBody
    | Text(text: string)
    | JsonBody(doc: Json)

  datatype Request = Request(verb: Method, url: string, headers: seq<Header>, body: Body)

  /** The result of one exchange: `http.begin` refused the URL (nothing is
      sent), or a status code together with the response body as parsed by
      `deserializeJson` (`None` when that failed). */
  datatype Outcome =
    | BeginFailed
    | Response(code: int, payload: Option<Json>)

  /** The value of the first header named `name`, if any. */
  function HeaderValue(hs: seq<Header>, name: string): (r: Option<string>)
    ensures r.Some? <==> exists i :: 0 <= i < |hs| && hs[i].name == name
    ensures r.Some? ==> exists i :: 0 <= i < |hs| && hs[i] == Header(name, r.value)
  {
    if hs == [] then None
    else if hs[0].name == name then Some(hs[0].value)
    else
      var r := HeaderValue(hs[1..], name);
      assert forall i :: 0 <= i < |hs[1..]| ==> hs[1..][i] == hs[i + 1];
      r
  }
}
