# Redoc middleware for Fiber, modelled in Dafny

`redoc.go` builds a Fiber handler that serves the Redoc viewer for one
OpenAPI document under a mount point. At setup, `New` reads the document,
builds the four values the index template is rendered with (`url`, `js_cdn`,
`css_cdn`, `theme`) from defaults and an optional `Config`, and, when a
config is given, decodes the document, sets `info["x-logo"]` when `info` is
an object, and re-encodes it. Per request, the handler fixes its mount
prefix on the first request (the route pattern without its `*`, preceded by
the forwarded prefix: the `X-Forwarded-Prefix` header's comma-separated
segments, each stripped of trailing `/`s down to one character, concatenated
with nothing between them), then
answers the path remainder: `index.html` renders the page, `doc.json` sends
the document, `""` and `/` redirect with 301 to `path.Join(prefix,
"index.html")`, and anything else is a 404.

Files:

- `wrappers.dfy`: `Option`.
- `json.dfy`: the JSON value that `encoding/json` decodes into `map[string]any`.
- `gostrings.dfy`: `strings.Split` on one character, `strings.ReplaceAll(s, "*", "")`,
  and concatenation, each with its inverse or a characterisation.
- `redoc.dfy`: the handler. `RenderValues` and `PatchLogo` specify what the
  constructor `Handler` builds step by step; `GetForwardedPrefix` is the
  loop of `getForwardedPrefix`, proved equal to `ForwardedPrefix`; the
  `Handler` class holds the captured state (`values`, `doc`, and the
  memoised `prefix`, `None` until the first request); `Dispatch` is the
  `switch`; `HandleAll` shows that every request of a run sees the prefix of
  the first one.

Inputs that come from the framework or the operating system are parameters:
the route pattern (`c.Route().Path`), the request headers
(`c.GetReqHeaders()`), the path remainder (`c.Params("*")`), the file's text
and the result of decoding it. A response is a `Response` value.

Behaviour of the code worth noting:

- A forwarded prefix of `/api/, /v1` gives `/api /v1`: segments are not
  trimmed of spaces (`ForwardedPrefixKeepsSpaces`).
- When a config is given and the document does not decode to a JSON object,
  Go's `docmap` stays a nil map, `json.Marshal` turns it into `null`, and
  `null` is what `doc.json` serves; the original text is not kept
  (`Marshalled(None)` in the constructor's contract).
- The logo patch runs for any config, even one whose logo and theme are
  empty, and `theme` is then replaced by the config's theme even when that
  is `""` (`RenderValues`, constructor).
- The index template is `html/template`, which escapes the values it
  inserts; the model does not claim the theme is inserted as given.

## Model

| member | source | states |
|---|---|---|
| `GoStrings.Split` | redoc.go:119 | the pieces hold no `,` and there is at least one |
| `GoStrings.JoinWithSplit` | redoc.go:119 | joining the pieces with `,` gives the header back, so no character is lost or added by splitting |
| `GoStrings.SplitJoinWith` | redoc.go:119 | splitting undoes joining for pieces without separators, so the pieces of a header are unique |
| `GoStrings.SplitCount` | redoc.go:119 | a header with n commas has n + 1 segments, empty ones included |
| `GoStrings.RemoveAll` | redoc.go:85 | no `*` is left and a route without `*` is unchanged |
| `GoStrings.RemoveAllCounts` | redoc.go:85 | every character other than `*` keeps its number of occurrences |
| `GoStrings.RemoveAllAppend` | redoc.go:85 | removing `*` works piece by piece, so the order of the other characters is kept |
| `GoStrings.RemoveSeparators` | redoc.go:117-131 | removing the commas from a joined header leaves the in-order concatenation of its segments |
| `Redoc.RenderValues` | redoc.go:43-58 | the four keys; `url` is always `doc.json`; without a config the default JS, CSS and `{}` theme; with one, each CDN override only when non-empty and the theme always replaced |
| `Redoc.RenderValuesFirstConfigOnly` | redoc.go:50-51 | only the first variadic config is read |
| `Redoc.LogoValueInjective` | redoc.go:23-27 | the `x-logo` object keeps all three logo fields |
| `Redoc.PatchLogo` | redoc.go:60-66 | a failed decode stays failed; when `info` is an object, `info["x-logo"]` becomes the logo and every other key of `info` and of the document is kept; otherwise the document is unchanged |
| `Redoc.PatchLogoIdempotent` | redoc.go:62-65 | patching twice with the same logo is patching once |
| `Redoc.PatchLogoOverwrites` | redoc.go:64 | a second patch replaces the logo the first one set: patching with one logo and then another is the same as patching with the second alone |
| `Redoc.CleanSegment` | redoc.go:121-130 | the result is a prefix of the segment, only `/`s were dropped, it does not end in `/` unless one character long, and it is empty only for the empty segment |
| `Redoc.CleanSegmentUnique` | redoc.go:121-130 | those four properties determine the cleaned segment |
| `Redoc.CleanSegmentIdempotent` | redoc.go:121-130 | cleaning a cleaned segment changes nothing |
| `Redoc.CleanSegmentKeepsUnslashed` | redoc.go:126-130 | a segment not ending in `/` is kept as it is |
| `Redoc.CleanSegmentExamples` | redoc.go:121-124 | `///` becomes `/`, `/` and `""` stay, `/api/` becomes `/api`, `/a/` becomes `/a`, ` /v1` and `/b` stay |
| `Redoc.CleanSegmentCounts` | redoc.go:121-130 | cleaning removes no character other than `/` |
| `Redoc.CleanedConcatStep` | redoc.go:126-130 | each iteration appends the cleaned segment to the accumulator |
| `Redoc.CleanedConcatAppend` | redoc.go:117-131 | segments are cleaned independently and concatenated in order |
| `Redoc.CleanedConcatOfClean` | redoc.go:126-130 | segments with nothing to strip are concatenated unchanged |
| `Redoc.CleanedConcatCounts` | redoc.go:117-131 | the concatenation of cleaned segments loses only `/`s |
| `Redoc.ForwardedPrefixOfSegments` | redoc.go:117-133 | a non-empty header joined from comma-free segments gives the concatenation of those segments, each cleaned, in order |
| `Redoc.CleanedConcatPair` | redoc.go:117-131 | two segments give the first cleaned followed by the second cleaned |
| `Redoc.ForwardedPrefixOfTwo` | redoc.go:117-133 | a header `a,b` gives the cleaned `a` immediately followed by the cleaned `b` |
| `Redoc.ForwardedPrefixKeepsSpaces` | redoc.go:117-133 | `/api/, /v1` gives `/api /v1` |
| `Redoc.ForwardedPrefixWithoutTrailingSlashes` | redoc.go:117-133 | when no segment ends in `/`, the forwarded prefix is the header with its commas removed |
| `Redoc.ForwardedPrefixCounts` | redoc.go:117-133 | every character of the header other than `,` and `/` survives, spaces included |
| `Redoc.GetForwardedPrefix` | redoc.go:110-134 | the loop computes `ForwardedPrefix` of the header; a missing or empty header gives `""` |
| `Redoc.MountPrefix` | redoc.go:85-90 | the forwarded prefix followed by exactly the route without its `*`s: the part after the forwarded prefix is `RemoveAll(route, '*')`, so it holds no `*` and its length is the route length minus its `*`s; with no header the result is exactly the route without `*` |
| `Redoc.Dispatch` | redoc.go:93-106 | exactly one of: the page with the render values for `index.html`, the document for `doc.json`, a 301 to `Join(prefix, "index.html")` for `""` and `/`, and 404 for every other remainder |
| `Redoc.Handler.constructor` | redoc.go:36-71 | the render values are `RenderValues(config)`; without a config the document text is served as read; with one, the marshalling of the logo-patched decode; no prefix yet |
| `Redoc.Handler.Handle` | redoc.go:83-107 | the first request sets the prefix to its `MountPrefix`, later ones leave it unchanged; the response is `Dispatch` with the stored prefix |
| `Redoc.HandleAll` | redoc.go:78-91 | over a run of requests on a fresh handler the prefix becomes that of the first request (a handler that already has one keeps it), and every request, whatever its route or headers, is answered with that one prefix |

## Left out

- Reading the file and `log.Fatal` on failure (redoc.go:37-40): the file's text is a constructor parameter.
- Parsing the template and the `panic` on failure (redoc.go:73-76): the template is a fixed constant that parses.
- Executing the template (redoc.go:97-98): `html/template` is library code; the `Page` response carries the values it is executed with, not the HTML, and the `text/html` content type is implied by the response kind.
- Decoding and encoding JSON text (redoc.go:61, 67): the decode result is a constructor parameter (`None` when the text is not a JSON object), and `Marshalled` carries the value, not its text, so key order and whitespace are not modelled. The `err != nil` branch of `json.Marshal` (redoc.go:68) is not modelled: a decoded map and a logo of strings always marshal.
- `Handler.constructor`: does not claim byte-for-byte preservation of the document when a config is given, because the text is always re-encoded.
- JSON numbers are `real`, not `float64`; the patch never touches them.
- `path.Join` (redoc.go:103): library code; the redirect location is kept as the symbolic `Join(prefix, "index.html")`.
- `sync.Once` (redoc.go:80, 84): only its sequential effect, set on the first request and never changed, is modelled; mutual exclusion between concurrent first requests is not.
- `c.Path(override)` (redoc.go:93) also rewrites the request's path in the Fiber context; that side effect is not modelled, only the remainder it returns is.
- Header lookup: `GetReqHeaders` is taken as a map from canonical header names to values; how Fiber folds case or merges repeated headers is not modelled.
- Go strings are bytes; the model's strings are characters. The characters the code compares (`,`, `/`, `*`) are ASCII, so the results agree.
- `examples/main.go` only registers the handler and starts the server.
