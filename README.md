# Prometheus system-metrics exporter, modelled in Dafny

The exporter answers HTTP scrapes with five host gauges: CPU usage, total and
used memory, total and used disk space. They are written in the Prometheus
text-based exposition format. This project models the exporter's
deterministic part:

- **the metrics text** (`generate_metrics`). The five operating-system
  readings go in (`Metrics.Readings`). They become the five reported values
  (`Metrics.Snapshot`, with `memory_used = total - available`). Those become
  the fifteen-line template, and the lines are joined with `"\n"`. Integers
  are written by a verified decimal writer (`Decimal`). The CPU value is
  Python's float `repr`, so it is taken as an opaque token: non-empty, with no
  blank and no newline.
- **a reader of that text** (`Exposition`). It splits the text at newlines and
  each line at blanks, like a scraper. It recognises HELP and TYPE comments
  and sample lines, and reads the five values back. It is the renderer's
  partner: the two are proved inverse (`ParseMetricsIffRender`).
- **the routing of `do_GET`** (`Handler`). `Route` is the pure decision.
  Exactly `"/"` gets 200 (section 15.3.1 of RFC 9110), one
  `Content-type: text/plain` header and the metrics text. Every other path
  gets 404 (section 15.5.5 of RFC 9110), no header and no body. The class
  `MetricsHandler` replays the handler's calls one at a time
  (`send_response`, `send_header`, `end_headers`, `wfile.write`). Its `DoGet`
  is proved to emit exactly what `Route` decides, or nothing at all when the
  operating-system queries for "/" fail.
- **the configuration defaults** (`Config`). `os.environ.get` is a lookup in a
  map from variable names to strings. An unset variable gives its default.

Files: `wrappers.dfy` (Option), `text.dfy` (join/split/count), `decimal.dfy`,
`metrics.dfy`, `exposition.dfy`, `handler.dfy`, `config.dfy`.

## Model

| member | source | states |
|---|---|---|
| `Metrics.Sample` | main.py:43-51 | the reported values carry the readings over; memory used plus available memory is total memory; if available ≤ total then 0 ≤ used ≤ total, otherwise used is negative |
| `Metrics.Lines` | main.py:53-69 | the template has exactly fifteen lines |
| `Metrics.LinesLayout` | main.py:53-69 | line 3k is `# HELP <name> <description>`, line 3k+1 is `# TYPE <name> gauge`, line 3k+2 is `<name> <value>`, for metric k in the order cpu_usage, memory_total, memory_used, disk_total, disk_used |
| `Metrics.ValueTextIsToken` | main.py:56-68 | every value text is non-empty and holds no blank and no newline |
| `Metrics.LinesHaveNoNewline` | main.py:53-69 | no template line contains a newline |
| `Metrics.Render` | main.py:53-71 | the fifteen lines joined with `"\n"`; its contract is carried by `Metrics.SplitRender`, `Metrics.RenderNewlines` and `Exposition.ParseMetricsIffRender` |
| `Metrics.GenerateMetrics` | main.py:29-71 | `generate_metrics()`: the rendering of the sampled readings; what a scrape receives from it is stated by `Handler.ServedScrape` |
| `Metrics.SplitRender` | main.py:71 | splitting the metrics text at `"\n"` gives back exactly the fifteen lines |
| `Metrics.RenderNewlines` | main.py:53-71 | the metrics text holds exactly fourteen newlines and does not end with one |
| `Text.Join` | main.py:71 | `"\n".join`; its contract is carried by `Text.SplitJoin`, `Text.JoinSplit` and `Text.CountJoin` |
| `Text.Split` | main.py:71 | reader-side partner of the join (the source itself does not split): Python's `str.split`, always at least one piece |
| `Text.SplitPiecesFree` | main.py:71 | no piece of a split holds the separator |
| `Text.Count` | main.py:71 | reader-side measure used to state the newline count of the joined text (the source itself does not count): at most the length, and zero exactly when the character is absent |
| `Text.SplitJoin` | main.py:71 | splitting a join of separator-free parts gives the parts back |
| `Text.JoinSplit` | main.py:71 | joining the pieces of a split gives the string back |
| `Text.CountJoin` | main.py:71 | a join of n separator-free parts holds n - 1 separators |
| `Decimal.NatToString` | main.py:59 | `str(n)` for a natural number: digits only, no leading zero unless the number is 0 |
| `Decimal.IntToString` | main.py:62 | `str(i)`: starts with a minus sign exactly when i is negative |
| `Decimal.ParseNat` | main.py:65 | reader-side partner of `str(n)` (the source itself does not parse): it accepts exactly the canonical numerals |
| `Decimal.ParseNatToString` | main.py:59-68 | reading back the decimal text of a number gives the number |
| `Decimal.NatToStringParse` | main.py:59-68 | a numeral that is read is the text of the number read (one text per number) |
| `Decimal.ParseIntToString` | main.py:62 | reading back the text of an integer, negative ones included, gives the integer |
| `Decimal.IntToStringParse` | main.py:62 | an integer text that is read is the text of the integer read |
| `Exposition.ClassifyLines` | main.py:53-69 | each of the fifteen lines is, by its blank-separated fields, the HELP comment, TYPE gauge comment or sample its position calls for, naming its block's metric |
| `Exposition.RenderedLineKinds` | main.py:53-71 | in the served text, after splitting at newlines, there are fifteen lines and TYPE comments stand exactly at lines 1, 4, 7, 10 and 13 |
| `Exposition.TypeDeclarationsOfRender` | main.py:55-67 | the served text declares exactly five metrics, all gauges, in the fixed order |
| `Exposition.ParseRender` | main.py:53-71 | reading the metrics text gives back every value it was made from |
| `Exposition.RenderParse` | main.py:53-71 | every text the reader accepts is exactly the rendering of the values it read |
| `Exposition.ParseMetricsIffRender` | main.py:53-71 | reading `t` gives `s` if and only if rendering `s` gives `t` |
| `Handler.Route` | main.py:90-101 | status 200 exactly for the path "/", with the single header Content-type: text/plain and the metrics text as body; 404 for every other path, with no header and an empty body |
| `Handler.ServedScrape` | main.py:90-97 | a scrape of "/" gets 200, the plain-text header, a body from which a reader recovers the sampled values and which declares the five gauges in order, with fourteen newlines and none at the end |
| `Handler.MetricsHandler.constructor` | main.py:74-83 | a new handler has emitted nothing |
| `Handler.MetricsHandler.SendResponse` | main.py:94 | sets the status, changes nothing else |
| `Handler.MetricsHandler.SendHeader` | main.py:95 | appends one header, changes nothing else |
| `Handler.MetricsHandler.EndHeaders` | main.py:96 | closes the headers, changes nothing else |
| `Handler.MetricsHandler.Write` | main.py:97 | appends to the body, changes nothing else |
| `Handler.MetricsHandler.DoGet` | main.py:83-101 | for "/" with failing operating-system queries nothing is emitted; otherwise the calls made for one request emit exactly the response `Route` decides, with the headers closed |
| `Config.Get` | main.py:11-12 | `os.environ.get`: the variable's value when it is set, otherwise the default |
| `Config.Load` | main.py:11-12 | the two settings read from the environment; its contract is carried by `Config.DefaultsWhenUnset` and `Config.SetVariablesUsed` |
| `Config.DefaultsWhenUnset` | main.py:11-12 | with both variables unset, the host is "0.0.0.0" and the port text reads as 8081 |
| `Config.SetVariablesUsed` | main.py:11-12 | a set variable is used as given, and each variable decides only its own setting |

## Left out

- The `psutil` calls (main.py:43, 45, 49) query the operating system. Their answers are the fields of `Metrics.Readings`. A query that raises is the argument `None` of `DoGet`; the model then promises that nothing was emitted, because `generate_metrics` (main.py:92) runs before `send_response` (main.py:94). What becomes of the exception afterwards (the server's error handling, which logs it and closes the connection without a response) is not modelled.
- Python's float `repr` of the CPU percentage (main.py:56) is floating-point formatting. The model keeps it as an opaque token with no blank and no newline.
- Config.DefaultsWhenUnset: `int()` on `EXPORTER_PORT` (main.py:12) is not modelled, because it also accepts signs, leading zeros, surrounding whitespace and underscores. A set value is kept as text. The default text is shown to read as 8081 with the strict decimal reader, which agrees with `int()` wherever it accepts; it refuses some texts `int()` takes, such as `"0081"`. The startup failure on a non-numeric value is therefore not modelled either.
- Handler.Route: the library's `send_response` also sends `Server` and `Date` headers and a reason phrase, and it writes the status line. These come from `BaseHTTPRequestHandler`, not from the handler, so the response lists only the headers the handler sends itself.
- The UTF-8 encoding of the body (main.py:97). The template and every value text are ASCII, so the body is the string itself.
- `HTTPServer`, `serve_forever`, socket binding and the request-line parsing that sets `path` (main.py:114-116). These are network I/O. The path is a parameter.
- `load_dotenv`, the logging setup and every log call, and the stray `from venv import logger` (main.py:2, 9, 16-26, 91, 99, 112, 115, 118, 120). These are I/O and process-wide state.
- The `KeyboardInterrupt` and catch-all exception handling around the server (main.py:113-120). This control flow exists only around I/O.
