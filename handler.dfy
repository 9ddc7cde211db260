/** `MetricsHandler.do_GET` (main.py): the response to one GET request,
    decided on the request path alone. */
module Handler {
  import opened Wrappers
  import opened Text
  import opened Metrics
  import opened Exposition

  type Header = (string, string)

  /** What the handler puts on the wire: the status code it passes to
      `send_response`, the headers it passes to `send_header`, in order, and
      what it writes to `wfile` after `end_headers`. */
  datatype Response = Response(status: nat, headers: seq<Header>, body: string)

  /** 200 OK, section 15.3.1 of RFC 9110. */
  const StatusOk: nat := 200
  /** 404 Not Found, section 15.5.5 of RFC 9110. */
  const StatusNotFound: nat := 404

  const MetricsPath := "/"
  const ContentType: Header := ("Content-type", "text/plain")

  /** The response to a request for `path`, given the text `generate_metrics`
      would return. Only the exact path "/" is served; the path is compared
      whole, query string included. */
  function Route(path: string, metrics: string): (r: Response)
    ensures r.status == StatusOk <==> path == MetricsPath
    ensures r.status == StatusNotFound <==> path != MetricsPath
    ensures path == MetricsPath ==> r.headers == [ContentType] && r.body == metrics
    ensures path != MetricsPath ==> r.headers == [] && r.body == ""
  {
    if path == MetricsPath then Response(StatusOk, [ContentType], metrics)
    else Response(StatusNotFound, [], "")
  }

  /** A scrape of "/" is answered with 200 and a plain-text body from which a
      reader recovers exactly the sampled values, whose TYPE comments declare
      the five gauges in order, and which holds fourteen newlines and none at
      its end. */
  lemma ServedScrape(readings: Readings)
    ensures Route(MetricsPath, GenerateMetrics(readings)).status == StatusOk
    ensures Route(MetricsPath, GenerateMetrics(readings)).headers == [ContentType]
    ensures ParseMetrics(Route(MetricsPath, GenerateMetrics(readings)).body) == Some(Sample(readings))
    ensures var ds := TypeDeclarations(Split(Route(MetricsPath, GenerateMetrics(readings)).body, '\n'));
      |ds| == GaugeCount && forall k :: 0 <= k < GaugeCount ==> ds[k] == (MetricNames[k], "gauge")
    ensures Count(Route(MetricsPath, GenerateMetrics(readings)).body, '\n') == 3 * GaugeCount - 1
    ensures var b := Route(MetricsPath, GenerateMetrics(readings)).body; |b| >= 1 && b[|b| - 1] != '\n'
  {
    var s := Sample(readings);
    var r := Route(MetricsPath, GenerateMetrics(readings));
    assert r.body == Render(s);
    ParseRender(s);
    TypeDeclarationsOfRender(s);
    RenderNewlines(s);
  }

  /** The request handler object: the response it has emitted so far. The
      path is what the HTTP server parsed from the request line. */
  class MetricsHandler {
    const path: string
    var status: Option<nat>
    var headers: seq<Header>
    var headersEnded: bool
    var body: string

    /** A handler for one request, before it has emitted anything. */
    constructor (path: string)
      ensures this.path == path
      ensures status == None && headers == [] && !headersEnded && body == ""
    {
      this.path := path;
      status := None;
      headers := [];
      headersEnded := false;
      body := "";
    }

    /** The response emitted, once a status has been sent. */
    function Emitted(): (r: Response)
      reads this
      requires status.Some?
      ensures r.status == status.value && r.headers == headers && r.body == body
    {
      Response(status.value, headers, body)
    }

    /** `send_response(code)`. */
    method SendResponse(code: nat)
      modifies this
      ensures status == Some(code)
      ensures headers == old(headers) && headersEnded == old(headersEnded) && body == old(body)
    {
      status := Some(code);
    }

    /** `send_header(keyword, value)`. */
    method SendHeader(keyword: string, value: string)
      modifies this
      ensures headers == old(headers) + [(keyword, value)]
      ensures status == old(status) && headersEnded == old(headersEnded) && body == old(body)
    {
      headers := headers + [(keyword, value)];
    }

    /** `end_headers()`. */
    method EndHeaders()
      modifies this
      ensures headersEnded
      ensures status == old(status) && headers == old(headers) && body == old(body)
    {
      headersEnded := true;
    }

    /** `wfile.write(data)`. */
    method Write(data: string)
      modifies this
      ensures body == old(body) + data
      ensures status == old(status) && headers == old(headers) && headersEnded == old(headersEnded)
    {
      body := body + data;
    }

    /** `do_GET()`, with the operating system's readings as an argument:
        `None` when one of the queries `generate_metrics` makes raises. The
        metrics are computed before `send_response`, so in that case the
        exception leaves the handler with nothing emitted. Otherwise it emits
        exactly the response `Route` decides, headers closed. Other paths never
        query the operating system. */
    method DoGet(readings: Option<Readings>)
      requires status == None && headers == [] && !headersEnded && body == ""
      modifies this
      ensures path == MetricsPath && readings.None? ==>
        status == None && headers == [] && !headersEnded && body == ""
      ensures path == MetricsPath && readings.Some? ==>
        status.Some? && headersEnded && Emitted() == Route(path, GenerateMetrics(readings.value))
      ensures path != MetricsPath ==>
        status.Some? && headersEnded && Emitted() == Route(path, "")
    {
      if path == MetricsPath {
        if readings.None? {
          return;
        }
        var metrics := GenerateMetrics(readings.value);
        SendResponse(StatusOk);
        SendHeader(ContentType.0, ContentType.1);
        EndHeaders();
        Write(metrics);
      } else {
        SendResponse(StatusNotFound);
        EndHeaders();
      }
    }
  }
}
