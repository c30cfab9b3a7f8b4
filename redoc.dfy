/**
  A Fiber middleware that serves the Redoc viewer for one OpenAPI document
  under a mount point: the index page, the document itself, a redirect from
  the bare mount path to the index page, and 404 for everything else.

  Framework calls are abstracted: the route pattern, the path remainder after
  the wildcard and the request headers are plain inputs, a response is a
  value of `Response`, and the file's contents and their JSON parse are given
  to the constructor.
 */
module Redoc {
  import opened Wrappers
  import opened Json
  import opened GoStrings

  const DefaultDocUrl := "doc.json"
  const DefaultIndex := "index.html"
  const DefaultJs := "https://cdn.redoc.ly/redoc/latest/bundles/redoc.standalone.js"
  const DefaultCss := "https://fonts.googleapis.com/css?family=Montserrat:300,400,700|Roboto:300,400,700"
  const DefaultTheme := "{}"

  const ForwardedPrefixHeader := "X-Forwarded-Prefix"
  const StatusMovedPermanently := 301
  const StatusNotFound := 404

  /** The `x-logo` extension of the document's `info` object. */
  datatype XLogo = XLogo(url: string, backgroundColor: string, altText: string)

  datatype Config = Config(logo: XLogo, theme: string, jsCdn: string, cssCdn: string)

  /**
    The text served as `doc.json`: the file's text as read, or the marshalling
    of a decoded top-level map (`None` is Go's nil map, marshalled as `null`).
   */
  datatype Doc = Text(raw: string) | Marshalled(value: Option<map<string, Json>>)

  /** `path.Join(base, elem)`, kept as the call itself: path cleaning is not modelled. */
  datatype Location = Join(base: string, elem: string)

  datatype Response =
    | Page(values: map<string, string>)          // 200 text/html: the index template executed with these values
    | Spec(body: Doc)                            // 200 application/json with this body
    | Redirect(location: Location, status: int)
    | Status(code: int)                          // a bare status; the framework's status text body is not modelled

  // ---------------------------------------------------------------------------
  // Render configuration

  /** The values the index template is executed with, for the optional config. */
  function RenderValues(config: seq<Config>): (m: map<string, string>)
    ensures m.Keys == {"url", "js_cdn", "css_cdn", "theme"}
    ensures m["url"] == DefaultDocUrl
    ensures |config| == 0 ==> m["js_cdn"] == DefaultJs && m["css_cdn"] == DefaultCss && m["theme"] == DefaultTheme
    ensures |config| > 0 ==> m["js_cdn"] == (if config[0].jsCdn != "" then config[0].jsCdn else DefaultJs)
    ensures |config| > 0 ==> m["css_cdn"] == (if config[0].cssCdn != "" then config[0].cssCdn else DefaultCss)
    ensures |config| > 0 ==> m["theme"] == config[0].theme
  {
    var m := map["url" := DefaultDocUrl, "js_cdn" := DefaultJs, "css_cdn" := DefaultCss, "theme" := DefaultTheme];
    if |config| == 0 then m
    else
      var cfg := config[0];
      var m1 := if cfg.jsCdn != "" then m["js_cdn" := cfg.jsCdn] else m;
      var m2 := if cfg.cssCdn != "" then m1["css_cdn" := cfg.cssCdn] else m1;
      m2["theme" := cfg.theme]
  }

  /** Only the first of the variadic configs is read. */
  lemma RenderValuesFirstConfigOnly(cfg: Config, more: seq<Config>)
    ensures RenderValues([cfg] + more) == RenderValues([cfg])
  {
  }

  // ---------------------------------------------------------------------------
  // Logo patch

  /** What encoding/json makes of an XLogo: an object with all three fields, empty ones included. */
  function LogoValue(logo: XLogo): Json
  {
    Obj(map["url" := Str(logo.url), "backgroundColor" := Str(logo.backgroundColor), "altText" := Str(logo.altText)])
  }

  /** The marshalled logo keeps every field: different logos give different values. */
  lemma LogoValueInjective(a: XLogo, b: XLogo)
    requires LogoValue(a) == LogoValue(b)
    ensures a == b
  {
    assert LogoValue(a).fields["url"] == Str(a.url);
    assert LogoValue(a).fields["backgroundColor"] == Str(a.backgroundColor);
    assert LogoValue(a).fields["altText"] == Str(a.altText);
  }

  predicate HasInfoObject(doc: map<string, Json>)
  {
    "info" in doc && doc["info"].Obj?
  }

  /**
    Sets `info["x-logo"]` of a decoded document when its `info` is an object;
    anything else, a failed decode included, is left as it is.
   */
  function PatchLogo(docmap: Option<map<string, Json>>, logo: XLogo): (r: Option<map<string, Json>>)
    ensures r.Some? <==> docmap.Some?
    ensures docmap.Some? ==> r.value.Keys == docmap.value.Keys
    ensures docmap.Some? ==> forall k :: k in docmap.value && k != "info" ==> r.value[k] == docmap.value[k]
    ensures docmap.Some? && HasInfoObject(docmap.value) ==>
      var info, info' := docmap.value["info"].fields, r.value["info"];
      && info'.Obj?
      && info'.fields.Keys == info.Keys + {"x-logo"}
      && info'.fields["x-logo"] == LogoValue(logo)
      && forall k :: k in info && k != "x-logo" ==> info'.fields[k] == info[k]
    ensures !(docmap.Some? && HasInfoObject(docmap.value)) ==> r == docmap
  {
    match docmap
    case None => None
    case Some(top) =>
      if HasInfoObject(top) then
        var infomap := top["info"].fields;
        Some(top["info" := Obj(infomap["x-logo" := LogoValue(logo)])])
      else docmap
  }

  /** Patching twice is patching once. */
  lemma PatchLogoIdempotent(docmap: Option<map<string, Json>>, logo: XLogo)
    ensures PatchLogo(PatchLogo(docmap, logo), logo) == PatchLogo(docmap, logo)
  {
    if docmap.Some? && HasInfoObject(docmap.value) {
      var top := docmap.value;
      var once := PatchLogo(docmap, logo).value;
      var infomap := top["info"].fields["x-logo" := LogoValue(logo)];
      assert once == top["info" := Obj(infomap)];
      assert infomap["x-logo" := LogoValue(logo)] == infomap;
      assert once["info" := Obj(infomap)] == once;
    }
  }

  /** A second patch replaces the logo the first one set, leaving no trace of it. */
  lemma PatchLogoOverwrites(docmap: Option<map<string, Json>>, first: XLogo, second: XLogo)
    ensures PatchLogo(PatchLogo(docmap, first), second) == PatchLogo(docmap, second)
  {
    if docmap.Some? && HasInfoObject(docmap.value) {
      var top := docmap.value;
      var info := top["info"].fields;
      assert info["x-logo" := LogoValue(first)]["x-logo" := LogoValue(second)] == info["x-logo" := LogoValue(second)];
      assert top["info" := Obj(info["x-logo" := LogoValue(first)])]["info" := Obj(info["x-logo" := LogoValue(second)])]
          == top["info" := Obj(info["x-logo" := LogoValue(second)])];
    }
  }

  // ---------------------------------------------------------------------------
  // Forwarded prefix

  /** A header as Go's map lookup reads it: a missing header reads as "". */
  function HeaderValue(headers: map<string, string>): string
  {
    if ForwardedPrefixHeader in headers then headers[ForwardedPrefixHeader] else ""
  }

  /**
    A forwarded-prefix segment with its trailing '/'s removed, stopping when
    one character is left: the longest prefix that drops only '/'s and does
    not end in '/' unless it is a single character.
   */
  function CleanSegment(raw: string): (r: string)
    ensures |r| <= |raw| && r == raw[..|r|]
    ensures forall k :: |r| <= k < |raw| ==> raw[k] == '/'
    ensures |r| <= 1 || r[|r| - 1] != '/'
    ensures raw != "" ==> r != ""
    decreases |raw|
  {
    if |raw| > 1 && raw[|raw| - 1] == '/' then CleanSegment(raw[..|raw| - 1]) else raw
  }

  /** The four properties in CleanSegment's contract determine its result. */
  lemma CleanSegmentUnique(raw: string, r: string)
    requires |r| <= |raw| && r == raw[..|r|]
    requires forall k :: |r| <= k < |raw| ==> raw[k] == '/'
    requires |r| <= 1 || r[|r| - 1] != '/'
    requires raw != "" ==> r != ""
    ensures r == CleanSegment(raw)
  {
  }

  /** Cleaning a cleaned segment changes nothing. */
  lemma CleanSegmentIdempotent(raw: string)
    ensures CleanSegment(CleanSegment(raw)) == CleanSegment(raw)
  {
  }

  /** A segment that does not end in '/' is returned unchanged. */
  lemma CleanSegmentKeepsUnslashed(raw: string)
    requires raw == "" || raw[|raw| - 1] != '/'
    ensures CleanSegment(raw) == raw
  {
  }

  lemma CleanSegmentExamples()
    ensures CleanSegment("///") == "/"
    ensures CleanSegment("/") == "/"
    ensures CleanSegment("") == ""
    ensures CleanSegment("/api/") == "/api"
    ensures CleanSegment(" /v1") == " /v1"
    ensures CleanSegment("/a/") == "/a"
    ensures CleanSegment("/b") == "/b"
  {
  }

  /** Cleaning only removes '/'s: every other character keeps its count. */
  lemma CleanSegmentCounts(raw: string, c: char)
    requires c != '/'
    ensures multiset(CleanSegment(raw))[c] == multiset(raw)[c]
  {
    var r := CleanSegment(raw);
    var tail := raw[|r|..];
    assert raw == r + tail;
  }

  /** The cleaned segments, in order, with nothing between them: the accumulator of the loop. */
  function CleanedConcat(segments: seq<string>): string
  {
    if segments == [] then ""
    else CleanedConcat(segments[..|segments| - 1]) + CleanSegment(segments[|segments| - 1])
  }

  /** Segments are cleaned independently and their results kept in order. */
  lemma {:induction false} CleanedConcatAppend(a: seq<string>, b: seq<string>)
    ensures CleanedConcat(a + b) == CleanedConcat(a) + CleanedConcat(b)
    decreases |b|
  {
    if b == [] {
      assert a + b == a;
    } else {
      var n := |b|;
      assert (a + b)[..|a + b| - 1] == a + b[..n - 1];
      assert (a + b)[|a + b| - 1] == b[n - 1];
      CleanedConcatAppend(a, b[..n - 1]);
    }
  }

  /** The accumulator after one more segment. */
  lemma CleanedConcatStep(segments: seq<string>, i: nat)
    requires i < |segments|
    ensures CleanedConcat(segments[..i + 1]) == CleanedConcat(segments[..i]) + CleanSegment(segments[i])
  {
    var front := segments[..i + 1];
    assert front[..|front| - 1] == segments[..i];
    assert front[|front| - 1] == segments[i];
  }

  /** When no segment has a trailing '/' to strip, cleaning is plain concatenation. */
  lemma {:induction false} CleanedConcatOfClean(segments: seq<string>)
    requires forall i :: 0 <= i < |segments| ==> CleanSegment(segments[i]) == segments[i]
    ensures CleanedConcat(segments) == Concat(segments)
    decreases |segments|
  {
    if segments != [] {
      CleanedConcatOfClean(segments[..|segments| - 1]);
    }
  }

  lemma {:induction false} CleanedConcatCounts(segments: seq<string>, c: char)
    requires c != '/'
    ensures multiset(CleanedConcat(segments))[c] == multiset(Concat(segments))[c]
    decreases |segments|
  {
    if segments != [] {
      var n := |segments|;
      CleanedConcatCounts(segments[..n - 1], c);
      CleanSegmentCounts(segments[n - 1], c);
    }
  }

  /**
    The forwarded prefix of an `X-Forwarded-Prefix` value: "" for an empty
    value, else the cleaned comma-separated segments concatenated in order.
   */
  function ForwardedPrefix(header: string): string
  {
    if header == "" then "" else CleanedConcat(Split(header, ','))
  }

  /** The forwarded prefix of a header built from known segments. */
  lemma ForwardedPrefixOfSegments(segments: seq<string>, header: string)
    requires |segments| >= 1
    requires forall i :: 0 <= i < |segments| ==> ',' !in segments[i]
    requires JoinWith(segments, ',') == header && header != ""
    ensures ForwardedPrefix(header) == CleanedConcat(segments)
  {
    SplitJoinWith(segments, ',');
  }

  /** Two segments: two iterations of the loop. */
  lemma CleanedConcatPair(a: string, b: string)
    ensures CleanedConcat([a, b]) == CleanSegment(a) + CleanSegment(b)
  {
    assert [a, b][..1] == [a];
    assert [a][..0] == [];
    assert CleanedConcat([a]) == CleanSegment(a);
    assert CleanedConcat([a, b]) == CleanedConcat([a]) + CleanSegment(b);
  }

  /** A header of two segments: each is cleaned, and the results are concatenated. */
  lemma ForwardedPrefixOfTwo(a: string, b: string, header: string)
    requires ',' !in a && ',' !in b
    requires header == a + [','] + b
    ensures ForwardedPrefix(header) == CleanSegment(a) + CleanSegment(b)
  {
    assert Split(header, ',') == [a, b] by {
      assert JoinWith([a, b], ',') == header;
      SplitJoinWith([a, b], ',');
    }
    CleanedConcatPair(a, b);
  }

  /** Spaces are not trimmed and nothing is put between segments. */
  lemma ForwardedPrefixKeepsSpaces(header: string)
    requires header == "/api/, /v1"
    ensures ForwardedPrefix(header) == "/api /v1"
  {
    ForwardedPrefixOfTwo("/api/", " /v1", header);
    CleanSegmentExamples();
  }

  /** When no segment has a '/' to strip, the forwarded prefix is the header without its commas. */
  lemma ForwardedPrefixWithoutTrailingSlashes(header: string)
    requires forall seg :: seg in Split(header, ',') ==> seg == "" || seg[|seg| - 1] != '/'
    ensures ForwardedPrefix(header) == RemoveAll(header, ',')
  {
    if header != "" {
      var segments := Split(header, ',');
      assert ForwardedPrefix(header) == Concat(segments) by {
        forall i | 0 <= i < |segments| ensures CleanSegment(segments[i]) == segments[i] {
          assert segments[i] in segments;
          CleanSegmentKeepsUnslashed(segments[i]);
        }
        CleanedConcatOfClean(segments);
      }
      assert Concat(segments) == RemoveAll(header, ',') by {
        RemoveSeparators(segments, ',');
        JoinWithSplit(header, ',');
      }
    }
  }

  /** Only commas and '/'s are dropped: every other character of the header survives, spaces included. */
  lemma ForwardedPrefixCounts(header: string, c: char)
    requires c != ',' && c != '/'
    ensures multiset(ForwardedPrefix(header))[c] == multiset(header)[c]
  {
    if header != "" {
      var segments := Split(header, ',');
      assert ForwardedPrefix(header) == CleanedConcat(segments);
      assert multiset(CleanedConcat(segments))[c] == multiset(Concat(segments))[c] by {
        CleanedConcatCounts(segments, c);
      }
      assert Concat(segments) == RemoveAll(header, ',') by {
        RemoveSeparators(segments, ',');
        JoinWithSplit(header, ',');
      }
      assert multiset(RemoveAll(header, ','))[c] == multiset(header)[c] by {
        RemoveAllCounts(header, ',');
      }
    }
  }

  /** getForwardedPrefix: the loop over the comma-separated segments of the header. */
  method GetForwardedPrefix(headers: map<string, string>) returns (prefix: string)
    ensures prefix == ForwardedPrefix(HeaderValue(headers))
    ensures HeaderValue(headers) == "" ==> prefix == ""
  {
    var header := if ForwardedPrefixHeader in headers then headers[ForwardedPrefixHeader] else "";
    if header == "" {
      return "";
    }
    prefix := "";
    var prefixes := Split(header, ',');
    for i := 0 to |prefixes|
      invariant prefix == CleanedConcat(prefixes[..i])
    {
      var rawPrefix := prefixes[i];
      var endIndex := |rawPrefix|;
      assert rawPrefix[..endIndex] == rawPrefix;
      while endIndex > 1 && rawPrefix[endIndex - 1] == '/'
        invariant 0 <= endIndex <= |rawPrefix|
        invariant CleanSegment(rawPrefix[..endIndex]) == CleanSegment(rawPrefix)
      {
        assert rawPrefix[..endIndex][..endIndex - 1] == rawPrefix[..endIndex - 1];
        endIndex := endIndex - 1;
      }
      assert rawPrefix[..endIndex] == CleanSegment(rawPrefix);
      if endIndex != |rawPrefix| {
        prefix := prefix + rawPrefix[..endIndex];
      } else {
        prefix := prefix + rawPrefix;
      }
      CleanedConcatStep(prefixes, i);
    }
    assert prefixes[..|prefixes|] == prefixes;
  }

  // ---------------------------------------------------------------------------
  // Mount prefix and dispatch

  /**
    The prefix the handler redirects under: the route pattern with every '*'
    removed, preceded by the forwarded prefix.
   */
  function MountPrefix(route: string, headers: map<string, string>): (r: string)
    ensures var fp := ForwardedPrefix(HeaderValue(headers));
      && |r| == |fp| + |route| - multiset(route)['*']
      && r[..|fp|] == fp
      && '*' !in r[|fp|..]
      && r[|fp|..] == RemoveAll(route, '*')
    ensures HeaderValue(headers) == "" ==> r == RemoveAll(route, '*')
  {
    var local := RemoveAll(route, '*');
    var forwarded := ForwardedPrefix(HeaderValue(headers));
    assert |local| == |route| - multiset(route)['*'] by {
      RemoveAllCounts(route, '*');
      assert |multiset(local)| == |multiset(route)| - multiset(route)['*'];
    }
    if forwarded != "" then
      assert (forwarded + local)[|forwarded|..] == local;
      forwarded + local
    else local
  }

  /** The response for the path remainder `p`: exactly one of four outcomes. */
  function Dispatch(p: string, prefix: string, values: map<string, string>, doc: Doc): (r: Response)
    ensures r.Page? <==> p == DefaultIndex
    ensures r.Spec? <==> p == DefaultDocUrl
    ensures r.Redirect? <==> p == "" || p == "/"
    ensures r.Status? <==> p != DefaultIndex && p != DefaultDocUrl && p != "" && p != "/"
    ensures r.Page? ==> r.values == values
    ensures r.Spec? ==> r.body == doc
    ensures r.Redirect? ==> r.location == Join(prefix, DefaultIndex) && r.status == StatusMovedPermanently
    ensures r.Status? ==> r.code == StatusNotFound
  {
    if p == DefaultIndex then Page(values)
    else if p == DefaultDocUrl then Spec(doc)
    else if p == "" || p == "/" then Redirect(Join(prefix, DefaultIndex), StatusMovedPermanently)
    else Status(StatusNotFound)
  }

  /** The handler that `New` returns, with the state its closure captures. */
  class Handler {
    const values: map<string, string>
    const doc: Doc
    /** The memoised mount prefix: None until the first request. */
    var prefix: Option<string>

    /**
      New: `docText` is what the file read returned and `parsed` what
      decoding it into a map gave (None when the text is not a JSON object).
     */
    constructor (docText: string, parsed: Option<map<string, Json>>, config: seq<Config>)
      ensures values == RenderValues(config)
      ensures |config| == 0 ==> doc == Text(docText)
      ensures |config| > 0 ==> doc == Marshalled(PatchLogo(parsed, config[0].logo))
      ensures prefix == None
    {
      var docjson := Text(docText);
      var m := map["url" := DefaultDocUrl, "js_cdn" := DefaultJs, "css_cdn" := DefaultCss, "theme" := DefaultTheme];
      if |config| > 0 {
        var cfg := config[0];
        if cfg.jsCdn != "" {
          m := m["js_cdn" := cfg.jsCdn];
        }
        if cfg.cssCdn != "" {
          m := m["css_cdn" := cfg.cssCdn];
        }
        m := m["theme" := cfg.theme];

        var docmap := parsed;
        if docmap.Some? && "info" in docmap.value && docmap.value["info"].Obj? {
          var infomap := docmap.value["info"].fields;
          infomap := infomap["x-logo" := LogoValue(cfg.logo)];
          docmap := Some(docmap.value["info" := Obj(infomap)]);
        }
        docjson := Marshalled(docmap);
      }
      values := m;
      doc := docjson;
      prefix := None;
    }

    /** One request: fix the mount prefix if this is the first, then dispatch on the remainder. */
    method Handle(route: string, headers: map<string, string>, param: string) returns (r: Response)
      modifies this
      ensures old(prefix).Some? ==> prefix == old(prefix)
      ensures old(prefix).None? ==> prefix == Some(MountPrefix(route, headers))
      ensures r == Dispatch(param, prefix.value, values, doc)
    {
      if prefix.None? {
        var p := RemoveAll(route, '*');
        var forwardedPrefix := GetForwardedPrefix(headers);
        if forwardedPrefix != "" {
          p := forwardedPrefix + p;
        }
        prefix := Some(p);
      }
      r := Dispatch(param, prefix.value, values, doc);
    }
  }

  datatype Request = Request(route: string, headers: map<string, string>, param: string)

  /**
    A run of requests on one handler: the first request (on a fresh handler)
    fixes the prefix, and every request, whatever its route and headers, is
    answered with that same prefix.
   */
  method HandleAll(h: Handler, reqs: seq<Request>) returns (rs: seq<Response>)
    modifies h
    ensures |reqs| == 0 ==> h.prefix == old(h.prefix)
    ensures |reqs| > 0 && old(h.prefix).Some? ==> h.prefix == old(h.prefix)
    ensures |reqs| > 0 && old(h.prefix).None? ==> h.prefix == Some(MountPrefix(reqs[0].route, reqs[0].headers))
    ensures |rs| == |reqs|
    ensures forall i :: 0 <= i < |reqs| ==> rs[i] == Dispatch(reqs[i].param, h.prefix.value, h.values, h.doc)
  {
    if |reqs| == 0 {
      return [];
    }
    var first := h.Handle(reqs[0].route, reqs[0].headers, reqs[0].param);
    rs := [first];
    ghost var fixed := h.prefix.value;
    for i := 1 to |reqs|
      invariant h.prefix == Some(fixed)
      invariant |rs| == i
      invariant forall j :: 0 <= j < i ==> rs[j] == Dispatch(reqs[j].param, fixed, h.values, h.doc)
    {
      var r := h.Handle(reqs[i].route, reqs[i].headers, reqs[i].param);
      rs := rs + [r];
    }
  }
}
