/**
 * The parts of net/http the middleware reads and writes: a request's method, path,
 * headers and remote address, and a response's headers, the status codes written to it
 * and its body.
 */
module Http {

  /**
   * An http.Header with one value per name. Names are kept exactly as the middleware
   * spells them, so Get and Set agree on them.
   */
  type Header = map<string, string>

  /** Header.Get: the value, or "" when the name is absent. */
  function Get(h: Header, name: string): (v: string)
    ensures name in h ==> v == h[name]
    ensures name !in h ==> v == ""
  {
    if name in h then h[name] else ""
  }

  /** The request line and the fields the middleware reads; `verb` is the HTTP method. */
  datatype Request = Request(verb: string, path: string, header: Header, remoteAddr: string)

  /** What has been written to a response body. */
  datatype Body =
    | Empty
      /** A status.Response encoded as JSON: its Status and Message fields. */
    | StatusBody(status: string, message: string)
      /** Whatever the route handler wrote. */
    | RouteBody

  /**
   * A response as the client sees it: the header map, every code passed to WriteHeader in
   * call order, and the body.
   */
  datatype Response = Response(header: Header, codes: seq<int>, body: Body)

  const EmptyResponse := Response(map[], [], Empty)

  const StatusOK := 200
  const StatusNoContent := 204
  const StatusTooManyRequests := 429

  /**
   * The status the client receives: the first WriteHeader call wins (later ones are
   * superfluous), and a handler that never calls it sends 200.
   */
  function StatusCode(w: Response): (code: int)
    ensures w.codes == [] ==> code == StatusOK
    ensures w.codes != [] ==> code == w.codes[0]
  {
    if w.codes == [] then StatusOK else w.codes[0]
  }

  /**
   * The status a responseWriter holds after its wrapped handler has made the given
   * WriteHeader calls: it starts at 200 and each call overwrites it, so the last one counts.
   */
  function Recorded(codes: seq<int>): (code: int)
    ensures codes == [] ==> code == StatusOK
    ensures codes != [] ==> code == codes[|codes| - 1]
  {
    if codes == [] then StatusOK else codes[|codes| - 1]
  }

  /** Once a code has been written, later WriteHeader calls do not change what the client sees. */
  lemma FirstCodeWins(w: Response, code: int)
    requires w.codes != []
    ensures StatusCode(w.(codes := w.codes + [code])) == StatusCode(w)
  {
  }

  /** The code a responseWriter holds is the one written last. */
  lemma LastCodeRecorded(codes: seq<int>, code: int)
    ensures Recorded(codes + [code]) == code
  {
  }

  /** A response writer whose header map and WriteHeader calls can be observed. */
  class Recorder {
    var header: Header
    var codes: seq<int>

    constructor ()
      ensures header == map[] && codes == []
    {
      header := map[];
      codes := [];
    }

    /** ResponseWriter.WriteHeader: the code is appended to the calls made so far. */
    method WriteHeader(code: int)
      modifies this`codes
      ensures codes == old(codes) + [code]
    {
      codes := codes + [code];
    }
  }
}
