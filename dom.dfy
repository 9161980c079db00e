/**
 * The parts of the web platform the scrapers touch, reduced to values:
 * a parsed element with its text, its `href` attribute and what each CSS
 * selector matches beneath it; the outcome of one `fetch`; and the errors
 * that a fetch, a response check or a parse can throw.
 */
module Dom {
  import opened Wrappers

  /**
   * An element of a parsed document. `text` is its `textContent`, `href` its
   * `href` attribute (None when the attribute is absent) and `matches[sel]` the
   * elements beneath it that the selector `sel` matches, in document order.
   * A selector absent from `matches` matches nothing.
   */
  datatype Element = Element(text: string, href: Option<string>, matches: map<string, seq<Element>>)

  /** `element.querySelectorAll(sel)`. */
  function QueryAll(e: Element, sel: string): seq<Element> {
    if sel in e.matches then e.matches[sel] else []
  }

  /** `element.querySelector(sel)`: the first match in document order, or null. */
  function Query(e: Element, sel: string): (r: Option<Element>)
    ensures r.None? <==> QueryAll(e, sel) == []
    ensures r.Some? ==> r.value == QueryAll(e, sel)[0]
  {
    var all := QueryAll(e, sel);
    if all == [] then None else Some(all[0])
  }

  /** What one `fetch` call yields: a rejected promise, or a response whose body parses to `body` (None: the parser gave null). */
  datatype Fetch =
    | NetworkFailure
    | TimedOut
    | Response(status: int, statusText: string, body: Option<Element>)

  /** The errors the scrapers throw or let propagate. */
  datatype Error =
    | NetworkError                              // fetch rejected
    | Timeout                                   // the request's abort signal fired
    | HttpStatus(status: int, statusText: string) // `HTTP ${status}: ${statusText}`
    | ParseFailure                              // 'Failed to parse HTML'
    | InvalidUrl(url: string)                   // `new URL(url)` threw
    | NotAnObject                               // a property read on null or undefined
    | NotIterable                               // `for ... of` over a value that is not iterable

  /** `response.ok`: the status is in the range 200-299. */
  predicate IsOk(status: int) {
    200 <= status <= 299
  }

  /**
   * Fetch, check `response.ok`, parse: the document on success, otherwise the
   * error the source throws at the first step that fails.
   */
  function Load(f: Fetch): (r: Result<Element, Error>)
    ensures r.Ok? <==> f.Response? && IsOk(f.status) && f.body.Some?
    ensures r.Ok? ==> r.value == f.body.value
    ensures f.Response? && !IsOk(f.status) ==> r == Err(HttpStatus(f.status, f.statusText))
  {
    match f
    case NetworkFailure => Err(NetworkError)
    case TimedOut => Err(Timeout)
    case Response(status, statusText, body) =>
      if !IsOk(status) then Err(HttpStatus(status, statusText))
      else if body.None? then Err(ParseFailure)
      else Ok(body.value)
  }

  /**
   * The network and the clock as seen by one scraper: `responses(n)` is what
   * the n-th `fetch` call yields, `requests` the URLs fetched so far and
   * `sleeps` the durations, in milliseconds, of the waits so far.
   */
  class Web {
    const responses: nat -> Fetch
    var requests: seq<string>
    var sleeps: seq<int>

    constructor (responses: nat -> Fetch)
      ensures this.responses == responses && requests == [] && sleeps == []
    {
      this.responses := responses;
      requests := [];
      sleeps := [];
    }

    /** `fetch(url)`: the next response, with the URL logged. */
    method Get(url: string) returns (f: Fetch)
      modifies this
      ensures f == responses(|old(requests)|)
      ensures requests == old(requests) + [url] && sleeps == old(sleeps)
    {
      f := responses(|requests|);
      requests := requests + [url];
    }

    /** `delay(ms)`: a wait of `ms` milliseconds, logged. */
    method Delay(ms: int)
      modifies this
      ensures sleeps == old(sleeps) + [ms] && requests == old(requests)
    {
      sleeps := sleeps + [ms];
    }
  }
}
