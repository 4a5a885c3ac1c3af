/**
 * The snapshot server's HTTP façade (`SnapshotServer` in
 * src/server/snapshot/snapshotServer.ts): `/snapshot/...` serves the viewer
 * page, the service worker and snapshot payloads; `/resources/...` serves
 * recorded resource bytes with rebuilt headers.
 *
 * The snapshot storage is abstract: its four lookups are finite maps whose
 * missing keys stand for `undefined`.
 */
module SnapshotServer {
  import opened Wrappers
  import opened Strings
  import opened Headers

  type Bytes = seq<bv8>

  /** One recorded response header; a record may hold several with one name. */
  datatype NameValue = NameValue(name: string, value: string)

  /** What the recorder kept of a network response. */
  datatype ResourceRecord = ResourceRecord(contentType: string, responseHeaders: seq<NameValue>, responseSha1: string)

  /** Reading a blob from storage: its bytes, or an exception. A missing blob is a missing key. */
  datatype ContentRead = Content(bytes: Bytes) | ReadThrows

  /** A snapshot's entry for one resource URL: which record, and an optional override digest. */
  datatype ResourceRef = ResourceRef(resourceId: string, sha1: Option<string>)

  /** `snapshot.render()`: the HTML and the URL-to-resource mapping (absent in `{html: ''}`). */
  datatype RenderedSnapshot = RenderedSnapshot(html: string, resources: Option<map<string, ResourceRef>>)

  /** `{ html: '' }`, served when no snapshot matches. */
  const EmptySnapshot := RenderedSnapshot("", None)

  /** `SnapshotStorage`, as four partial lookups. */
  datatype Storage = Storage(
    byName: map<(string, string), RenderedSnapshot>,
    byTime: map<(string, Option<string>), RenderedSnapshot>,
    resources: map<string, ResourceRecord>,
    contents: map<string, ContentRead>)

  /** What a response carries as body; the static page and script texts are not modelled. */
  datatype Body = ViewerPage | ServiceWorkerScript | SnapshotJson(snapshot: RenderedSnapshot) | ResourceBytes(bytes: Bytes)

  const LongCache := "public, max-age=31536000"
  const CharsetSuffix := "; charset=utf-8"

  // ---------------------------------------------------------------------------
  // Content type

  /** `/^text\/|^application\/(javascript|json)/.test(contentType)`. */
  predicate IsTextEncoding(contentType: string) {
    StartsWith(contentType, "text/")
    || StartsWith(contentType, "application/javascript")
    || StartsWith(contentType, "application/json")
  }

  /** The content type served: textual types without a charset get `; charset=utf-8`. */
  function WithCharset(contentType: string): string {
    if IsTextEncoding(contentType) && !Contains(contentType, "charset")
    then contentType + CharsetSuffix
    else contentType
  }

  /** A text that starts somewhere inside `s` is contained in `s`. */
  lemma {:induction false} ContainsInSuffix(a: string, b: string, sub: string)
    requires StartsWith(b, sub)
    ensures Contains(a + b, sub)
    decreases |a|
  {
    if |a| > 0 {
      assert (a + b)[1..] == a[1..] + b;
      ContainsInSuffix(a[1..], b, sub);
    } else {
      assert a + b == b;
    }
  }

  lemma StartsWithExtended(s: string, t: string, prefix: string)
    requires StartsWith(s, prefix)
    ensures StartsWith(s + t, prefix)
  {
    assert (s + t)[..|prefix|] == s[..|prefix|];
  }

  /**
   * A textual content type comes out declaring a charset and still textual;
   * any other content type comes out unchanged.
   */
  lemma CharsetDeclared(contentType: string)
    ensures IsTextEncoding(contentType) ==>
      IsTextEncoding(WithCharset(contentType)) && Contains(WithCharset(contentType), "charset")
    ensures !IsTextEncoding(contentType) ==> WithCharset(contentType) == contentType
    ensures StartsWith(WithCharset(contentType), contentType)
    ensures IsTextEncoding(contentType) && !Contains(contentType, "charset") ==>
      WithCharset(contentType) == contentType + "; charset=utf-8"
    ensures Contains(contentType, "charset") ==> WithCharset(contentType) == contentType
  {
    var r := WithCharset(contentType);
    assert r[..|contentType|] == contentType;
    if IsTextEncoding(contentType) && !Contains(contentType, "charset") {
      if StartsWith(contentType, "text/") {
        StartsWithExtended(contentType, CharsetSuffix, "text/");
      }
      if StartsWith(contentType, "application/javascript") {
        StartsWithExtended(contentType, CharsetSuffix, "application/javascript");
      }
      if StartsWith(contentType, "application/json") {
        StartsWithExtended(contentType, CharsetSuffix, "application/json");
      }
      assert CharsetSuffix == "; " + "charset=utf-8";
      assert r == (contentType + "; ") + "charset=utf-8";
      ContainsInSuffix(contentType + "; ", "charset=utf-8", "charset");
    }
  }

  /** Appending the charset is idempotent: a served content type is served unchanged. */
  lemma WithCharsetIdempotent(contentType: string)
    ensures WithCharset(WithCharset(contentType)) == WithCharset(contentType)
  {
    CharsetDeclared(contentType);
  }

  /** An explicit charset is left alone. */
  lemma DeclaredCharsetKept()
    ensures WithCharset("text/plain; charset=iso-8859-1") == "text/plain; charset=iso-8859-1"
  {
    assert "text/plain; " + "charset=iso-8859-1" == "text/plain; charset=iso-8859-1";
    ContainsInSuffix("text/plain; ", "charset=iso-8859-1", "charset");
  }

  /** A binary type is left alone. */
  lemma BinaryTypeKept()
    ensures WithCharset("image/png") == "image/png"
  {
    assert "image/png"[..5][0] != "text/"[0];
  }

  // ---------------------------------------------------------------------------
  // Resource paths

  /** A recognised resource path: `/resources/<id>` or `/resources/<id>/override/<sha1>`. */
  datatype ResourcePath = ResourcePath(resourceId: string, overrideSha1: Option<string>)

  /** `parts` after dropping one empty first piece and then one empty last piece. */
  function TrimParts(parts: seq<string>): (r: seq<string>)
    ensures |parts| - 2 <= |r| <= |parts|
  {
    var a := if |parts| > 0 && parts[0] == "" then parts[1..] else parts;
    if |a| > 0 && a[|a| - 1] == "" then a[..|a| - 1] else a
  }

  /** The path shapes `_serveResource` accepts. */
  function ParseResourcePath(url: string): Option<ResourcePath>
  {
    var parts := TrimParts(Split(url, '/'));
    if |parts| == 0 || parts[0] != "resources" then None
    else if |parts| == 2 then Some(ResourcePath(parts[1], None))
    else if |parts| == 4 && parts[2] == "override" then Some(ResourcePath(parts[1], Some(parts[3])))
    else None
  }

  /** The pieces of a resource path: `resources/<id>`, then `override/<sha1>` when there is one. */
  function ResourcePathParts(p: ResourcePath): seq<string> {
    ["resources", p.resourceId] + (if p.overrideSha1.Some? then ["override", p.overrideSha1.value] else [])
  }

  /** A text with an optional leading and an optional trailing `/`. */
  function Slashed(c: string, lead: bool, trail: bool): string {
    if lead && trail then "/" + c + "/"
    else if lead then "/" + c
    else if trail then c + "/"
    else c
  }

  /** The pieces `split` finds in `Slashed(Join(parts, '/'), lead, trail)`. */
  function Pieces(parts: seq<string>, lead: bool, trail: bool): seq<string> {
    if lead && trail then [""] + (parts + [""])
    else if lead then [""] + parts
    else if trail then parts + [""]
    else parts
  }

  lemma SlashedPieces(parts: seq<string>, lead: bool, trail: bool)
    requires |parts| >= 1
    ensures Join(Pieces(parts, lead, trail), '/') == Slashed(Join(parts, '/'), lead, trail)
  {
    if trail {
      SlashBehind(parts);
    }
    if lead && trail {
      SlashInFront(parts + [""]);
      AppendAssoc("/", Join(parts, '/'), "/");
    } else if lead {
      SlashInFront(parts);
    }
  }

  lemma PiecesFree(parts: seq<string>, lead: bool, trail: bool)
    requires forall i :: 0 <= i < |parts| ==> Free(parts[i], '/')
    ensures forall i :: 0 <= i < |Pieces(parts, lead, trail)| ==> Free(Pieces(parts, lead, trail)[i], '/')
  {
    var whole := Pieces(parts, lead, trail);
    forall i | 0 <= i < |whole|
      ensures Free(whole[i], '/')
    {
      var j := if lead then i - 1 else i;
      if 0 <= j < |parts| {
        assert whole[i] == parts[j];
      } else {
        assert whole[i] == "";
      }
    }
  }

  lemma TrimPieces(parts: seq<string>, lead: bool, trail: bool)
    requires |parts| >= 1
    requires !lead ==> parts[0] != ""
    requires !trail ==> parts[|parts| - 1] != ""
    ensures TrimParts(Pieces(parts, lead, trail)) == parts
  {
    var whole := Pieces(parts, lead, trail);
    var back := parts + (if trail then [""] else []);
    if lead {
      assert whole[1..] == back;
    } else {
      assert whole == back;
    }
    if trail {
      assert back[..|back| - 1] == parts;
    } else {
      assert back == parts;
    }
  }

  /**
   * Pieces joined by `/`, with an optional `/` in front and behind, come back
   * as those pieces after trimming, as long as a piece without its slash is
   * not empty (it would be dropped in the slash's stead).
   */
  lemma TrimJoined(parts: seq<string>, lead: bool, trail: bool)
    requires |parts| >= 1
    requires forall i :: 0 <= i < |parts| ==> Free(parts[i], '/')
    requires !lead ==> parts[0] != ""
    requires !trail ==> parts[|parts| - 1] != ""
    ensures TrimParts(Split(Slashed(Join(parts, '/'), lead, trail), '/')) == parts
  {
    SlashedPieces(parts, lead, trail);
    PiecesFree(parts, lead, trail);
    SplitJoin(Pieces(parts, lead, trail), '/');
    TrimPieces(parts, lead, trail);
  }

  /**
   * Every path of one of the two shapes is accepted, with or without a
   * leading and a trailing `/`, when its ids hold no `/` and its last piece
   * is not empty unless a trailing `/` follows it.
   */
  lemma ResourcePathAccepted(p: ResourcePath, lead: bool, trail: bool)
    requires Free(p.resourceId, '/')
    requires p.overrideSha1.Some? ==> Free(p.overrideSha1.value, '/')
    requires !trail ==> (if p.overrideSha1.Some? then p.overrideSha1.value else p.resourceId) != ""
    ensures ParseResourcePath(Slashed(Join(ResourcePathParts(p), '/'), lead, trail)) == Some(p)
  {
    var parts := ResourcePathParts(p);
    assert Free("resources", '/') && Free("override", '/');
    assert parts[0] == "resources";
    TrimJoined(parts, lead, trail);
  }

  /** A `/` in front of joined pieces is an empty first piece. */
  lemma SlashInFront(pieces: seq<string>)
    requires |pieces| >= 1
    ensures Join([""] + pieces, '/') == "/" + Join(pieces, '/')
  {
    JoinCons("", pieces, '/');
  }

  /** A `/` behind joined pieces is an empty last piece. */
  lemma SlashBehind(pieces: seq<string>)
    requires |pieces| >= 1
    ensures Join(pieces + [""], '/') == Join(pieces, '/') + "/"
  {
    JoinSnoc(pieces, "", '/');
  }

  /** Joining pieces that trimming turns into at least one piece adds at most one `/` in front and one behind. */
  lemma TrimmedJoin(whole: seq<string>)
    requires |TrimParts(whole)| >= 1
    ensures var c := Join(TrimParts(whole), '/');
      var j := Join(whole, '/');
      j == c || j == "/" + c || j == c + "/" || j == "/" + c + "/"
  {
    var lead := |whole| > 0 && whole[0] == "";
    var back := if lead then whole[1..] else whole;
    var trail := |back| > 0 && back[|back| - 1] == "";
    var parts := TrimParts(whole);
    assert parts == if trail then back[..|back| - 1] else back;
    var c := Join(parts, '/');
    var b := Join(back, '/');
    if trail {
      assert back == parts + [""];
      SlashBehind(parts);
    }
    assert b == (if trail then c + "/" else c);
    if lead {
      assert whole == [""] + back;
      SlashInFront(back);
      AppendAssoc("/", c, "/");
    }
  }

  /** An accepted path is made of exactly the pieces of what was parsed. */
  lemma ParsedPieces(url: string)
    requires ParseResourcePath(url).Some?
    ensures TrimParts(Split(url, '/')) == ResourcePathParts(ParseResourcePath(url).value)
  {
  }

  /**
   * The converse: a path that is accepted is the joined pieces of what was
   * parsed, with at most one `/` added in front and one behind.
   */
  lemma ResourcePathForms(url: string)
    ensures ParseResourcePath(url).Some? ==>
      var c := Join(ResourcePathParts(ParseResourcePath(url).value), '/');
      url == c || url == "/" + c || url == c + "/" || url == "/" + c + "/"
  {
    if ParseResourcePath(url).Some? {
      ParsedPieces(url);
      JoinSplit(url, '/');
      TrimmedJoin(Split(url, '/'));
    }
  }

  /** The digest served: a non-empty override digest, else the record's own. */
  function EffectiveSha1(path: ResourcePath, record: ResourceRecord): string {
    if path.overrideSha1.Some? && path.overrideSha1.value != "" then path.overrideSha1.value
    else record.responseSha1
  }

  /** What `_serveResource` finds for a URL: nothing (it returns false), or a record and its bytes. */
  datatype Resolution = NotHandled | Found(record: ResourceRecord, sha1: string, bytes: Bytes)

  function ResolveResource(st: Storage, url: string): Resolution
  {
    match ParseResourcePath(url)
    case None => NotHandled
    case Some(path) =>
      if path.resourceId !in st.resources then NotHandled
      else
        var record := st.resources[path.resourceId];
        var sha1 := EffectiveSha1(path, record);
        if sha1 in st.contents && st.contents[sha1].Content? then Found(record, sha1, st.contents[sha1].bytes)
        else NotHandled
  }

  /**
   * A resource is served exactly when the path has one of the two shapes, the
   * record exists and its effective digest reads without error; the bytes
   * served are those stored under the override digest when one was given,
   * else under the record's `responseSha1`.
   */
  lemma ResolveResourceIff(st: Storage, url: string)
    ensures ResolveResource(st, url).Found? <==>
      exists path :: ParseResourcePath(url) == Some(path) && path.resourceId in st.resources
        && EffectiveSha1(path, st.resources[path.resourceId]) in st.contents
        && st.contents[EffectiveSha1(path, st.resources[path.resourceId])].Content?
    ensures ResolveResource(st, url).Found? ==>
      var path := ParseResourcePath(url).value;
      var r := ResolveResource(st, url);
      && r.record == st.resources[path.resourceId]
      && r.sha1 == (if path.overrideSha1.Some? && path.overrideSha1.value != "" then path.overrideSha1.value else r.record.responseSha1)
      && st.contents[r.sha1] == Content(r.bytes)
  {
  }

  // ---------------------------------------------------------------------------
  // Response headers of a served resource

  /** `setHeader(name, value)` for each recorded header, in order. */
  function ApplyHeaders(h: HeaderMap, hs: seq<NameValue>): HeaderMap
    decreases |hs|
  {
    if hs == [] then h
    else WithHeader(ApplyHeaders(h, hs[..|hs| - 1]), hs[|hs| - 1].name, Text(hs[|hs| - 1].value))
  }

  /** The value of the last recorded header whose name has table key `key`. */
  function LastValue(hs: seq<NameValue>, key: string): Option<string>
    decreases |hs|
  {
    if hs == [] then None
    else if Key(hs[|hs| - 1].name) == key then Some(hs[|hs| - 1].value)
    else LastValue(hs[..|hs| - 1], key)
  }

  /** After the recorded headers are applied, each name holds its last recorded value; others are untouched. */
  lemma {:induction false} ApplyHeadersAt(h: HeaderMap, hs: seq<NameValue>, key: string)
    ensures key in ApplyHeaders(h, hs) <==> key in h || LastValue(hs, key).Some?
    ensures LastValue(hs, key).Some? ==> ApplyHeaders(h, hs)[key] == Text(LastValue(hs, key).value)
    ensures LastValue(hs, key).None? && key in h ==> ApplyHeaders(h, hs)[key] == h[key]
    decreases |hs|
  {
    if hs != [] {
      ApplyHeadersAt(h, hs[..|hs| - 1], key);
    }
  }

  /** The header table `_serveResource` leaves, starting from `h`. */
  function ResourceHeaders(h: HeaderMap, contentType: string, recorded: seq<NameValue>, length: nat): HeaderMap
  {
    var typed := WithHeader(h, "Content-Type", Text(WithCharset(contentType)));
    var copied := ApplyHeaders(typed, recorded);
    var decoded := WithoutHeader(copied, "Content-Encoding");
    var cors := WithHeader(WithoutHeader(decoded, "Access-Control-Allow-Origin"), "Access-Control-Allow-Origin", Text("*"));
    var sized := WithHeader(WithoutHeader(cors, "Content-Length"), "Content-Length", Number(length));
    WithHeader(sized, "Cache-Control", Text(LongCache))
  }

  /** The four headers `_serveResource` forces, by table key. */
  const ForcedKeys: set<string> := {"content-encoding", "access-control-allow-origin", "content-length", "cache-control"}

  /** The table keys of the header names `_serveResource` and `_serveSnapshot` write. */
  lemma HeaderKeys()
    ensures Key("Content-Type") == "content-type"
    ensures Key("Content-Encoding") == "content-encoding"
    ensures Key("Access-Control-Allow-Origin") == "access-control-allow-origin"
    ensures Key("Content-Length") == "content-length"
    ensures Key("Cache-Control") == "cache-control"
  {
    KeyOfCors();
    KeyOfOthers();
  }

  lemma KeyOfCors()
    ensures Key("Access-Control-Allow-Origin") == "access-control-allow-origin"
  {
  }

  lemma KeyOfOthers()
    ensures Key("Content-Type") == "content-type"
    ensures Key("Content-Encoding") == "content-encoding"
    ensures Key("Content-Length") == "content-length"
    ensures Key("Cache-Control") == "cache-control"
  {
  }

  /**
   * The served headers: no `Content-Encoding`, `Access-Control-Allow-Origin: *`,
   * `Content-Length` the byte length, the long-lived `Cache-Control`; every
   * other name holds its last recorded value, else (for `Content-Type`) the
   * content type with its charset, else what the response held before.
   */
  lemma ResourceHeadersSpec(h: HeaderMap, contentType: string, recorded: seq<NameValue>, length: nat, key: string)
    ensures var r := ResourceHeaders(h, contentType, recorded, length);
      && "content-encoding" !in r
      && "access-control-allow-origin" in r && r["access-control-allow-origin"] == Text("*")
      && "content-length" in r && r["content-length"] == Number(length)
      && "cache-control" in r && r["cache-control"] == Text(LongCache)
      && (key !in ForcedKeys ==>
            && (key in r <==> key in h || key == "content-type" || LastValue(recorded, key).Some?)
            && (LastValue(recorded, key).Some? ==> r[key] == Text(LastValue(recorded, key).value))
            && (LastValue(recorded, key).None? && key == "content-type" ==> r[key] == Text(WithCharset(contentType)))
            && (LastValue(recorded, key).None? && key != "content-type" && key in h ==> r[key] == h[key]))
  {
    HeaderKeys();
    var typed := WithHeader(h, "Content-Type", Text(WithCharset(contentType)));
    ApplyHeadersAt(typed, recorded, key);
  }

  // ---------------------------------------------------------------------------
  // `_serveResource`

  /**
   * The path handling at the top of `_serveResource`: split on `/`, drop one
   * empty first and one empty last piece, and accept only the two shapes.
   */
  method ParseParts(url: string) returns (path: Option<ResourcePath>)
    ensures path == ParseResourcePath(url)
  {
    var parts := Split(url, '/');
    if |parts| > 0 && parts[0] == "" {
      parts := parts[1..];
    }
    if |parts| > 0 && parts[|parts| - 1] == "" {
      parts := parts[..|parts| - 1];
    }
    assert parts == TrimParts(Split(url, '/'));
    if |parts| == 0 || parts[0] != "resources" {
      return None;
    }
    if |parts| == 2 {
      return Some(ResourcePath(parts[1], None));
    } else if |parts| == 4 && parts[2] == "override" {
      return Some(ResourcePath(parts[1], Some(parts[3])));
    }
    return None;
  }

  /** The loop of `_serveResource` that copies every recorded header, in order, onto the response. */
  method CopyHeaders(response: ServerResponse<Body>, recorded: seq<NameValue>)
    modifies response`headers
    ensures response.headers == ApplyHeaders(old(response.headers), recorded)
  {
    var i := 0;
    while i < |recorded|
      invariant 0 <= i <= |recorded|
      invariant response.headers == ApplyHeaders(old(response.headers), recorded[..i])
    {
      var header := recorded[i];
      response.SetHeader(header.name, Text(header.value));
      assert recorded[..i + 1][..i] == recorded[..i];
      i := i + 1;
    }
    assert recorded[..i] == recorded;
  }

  /** The header assembly of a served resource, ending the response with its bytes. */
  method WriteResource(response: ServerResponse<Body>, resource: ResourceRecord, content: Bytes)
    modifies response
    ensures response.statusCode == 200
    ensures response.headers == ResourceHeaders(old(response.headers), resource.contentType,
                                                resource.responseHeaders, |content|)
    ensures response.body == Some(ResourceBytes(content))
  {
    response.statusCode := 200;
    var contentType := resource.contentType;
    if IsTextEncoding(contentType) && !Contains(contentType, "charset") {
      contentType := contentType + CharsetSuffix;
    }
    response.SetHeader("Content-Type", Text(contentType));
    CopyHeaders(response, resource.responseHeaders);
    response.RemoveHeader("Content-Encoding");
    response.RemoveHeader("Access-Control-Allow-Origin");
    response.SetHeader("Access-Control-Allow-Origin", Text("*"));
    response.RemoveHeader("Content-Length");
    response.SetHeader("Content-Length", Number(|content|));
    response.SetHeader("Cache-Control", Text(LongCache));
    response.End(ResourceBytes(content));
  }

  /**
   * Serves `/resources/<id>` and `/resources/<id>/override/<sha1>`. Returns
   * false, leaving the response untouched, for any other path, an unknown
   * record, a missing blob or a blob read that throws.
   */
  method ServeResource(st: Storage, url: string, response: ServerResponse<Body>) returns (handled: bool)
    modifies response
    ensures handled <==> ResolveResource(st, url).Found?
    ensures !handled ==> (response.statusCode == old(response.statusCode)
      && response.headers == old(response.headers) && response.body == old(response.body))
    ensures handled ==>
      var found := ResolveResource(st, url);
      && response.statusCode == 200
      && response.headers == ResourceHeaders(old(response.headers), found.record.contentType,
                                             found.record.responseHeaders, |found.bytes|)
      && response.body == Some(ResourceBytes(found.bytes))
  {
    var path := ParseParts(url);
    if path.None? {
      return false;
    }
    var resourceId, overrideSha1 := path.value.resourceId, path.value.overrideSha1;
    if resourceId !in st.resources {
      return false;
    }
    var resource := st.resources[resourceId];
    var sha1 := if overrideSha1.Some? && overrideSha1.value != "" then overrideSha1.value else resource.responseSha1;
    if sha1 !in st.contents || st.contents[sha1].ReadThrows? {
      return false;
    }
    var content := st.contents[sha1].bytes;
    assert ResolveResource(st, url) == Found(resource, sha1, content);
    WriteResource(response, resource, content);
    return true;
  }

  // ---------------------------------------------------------------------------
  // `_serveSnapshot`

  /** The `name` and `time` fields of the parsed query string. */
  datatype Query = Query(name: Option<string>, time: Option<string>)

  /** Which of its three answers `_serveSnapshot` gives for a URL. */
  datatype SnapshotRoute = Root | Worker | Lookup(pageId: string, query: Option<string>)

  /**
   * The two fixed sub-paths by suffix; otherwise the text after the first ten
   * characters (`'/snapshot/'.length`), split on `?` into page id and query.
   */
  function RouteSnapshot(url: string): SnapshotRoute
  {
    if EndsWith(url, "/snapshot/") then Root
    else if EndsWith(url, "/snapshot/service-worker.js") then Worker
    else
      var pieces := Split(url[if |url| < 10 then |url| else 10..], '?');
      Lookup(pieces[0], if |pieces| > 1 then Some(pieces[1]) else None)
  }

  /** A non-empty `name` looks up by name; otherwise by `time`; nothing found gives `{html: ''}`. */
  function ChooseSnapshot(st: Storage, pageId: string, q: Query): RenderedSnapshot
  {
    if q.name.Some? && q.name.value != "" then
      if (pageId, q.name.value) in st.byName then st.byName[(pageId, q.name.value)] else EmptySnapshot
    else
      if (pageId, q.time) in st.byTime then st.byTime[(pageId, q.time)] else EmptySnapshot
  }

  /** A non-empty name decides alone: the time given beside it is ignored. */
  lemma NameTakesPrecedence(st: Storage, pageId: string, name: string, t1: Option<string>, t2: Option<string>)
    requires name != ""
    ensures ChooseSnapshot(st, pageId, Query(Some(name), t1)) == ChooseSnapshot(st, pageId, Query(Some(name), t2))
    ensures (pageId, name) in st.byName ==> ChooseSnapshot(st, pageId, Query(Some(name), t1)) == st.byName[(pageId, name)]
  {
  }

  /** A snapshot that storage does not have is answered with the empty HTML payload, never an error. */
  lemma MissingSnapshotIsEmpty(st: Storage, pageId: string, q: Query)
    requires q.name.Some? && q.name.value != "" ==> (pageId, q.name.value) !in st.byName
    requires !(q.name.Some? && q.name.value != "") ==> (pageId, q.time) !in st.byTime
    ensures ChooseSnapshot(st, pageId, q).html == "" && ChooseSnapshot(st, pageId, q).resources == None
  {
  }

  /** `/snapshot/<pageId>?<query>` is routed to page `pageId` with that query. */
  lemma {:induction false} SnapshotUrlRoute(pageId: string, query: string)
    requires Free(pageId, '?') && Free(query, '?')
    requires !EndsWith("/snapshot/" + pageId + "?" + query, "/snapshot/")
    requires !EndsWith("/snapshot/" + pageId + "?" + query, "/snapshot/service-worker.js")
    ensures RouteSnapshot("/snapshot/" + pageId + "?" + query) == Lookup(pageId, Some(query))
  {
    var url := "/snapshot/" + pageId + "?" + query;
    assert url[10..] == pageId + ['?'] + query;
    assert Join([pageId, query], '?') == pageId + ['?'] + query;
    SplitJoin([pageId, query], '?');
  }

  /**
   * Only the first `?` separates page id and query: the query ends at a
   * second `?`, and whatever follows it is dropped.
   */
  lemma {:induction false} SecondQueryMarkCuts(pageId: string, query: string, rest: string)
    requires Free(pageId, '?') && Free(query, '?')
    requires !EndsWith("/snapshot/" + pageId + "?" + query + "?" + rest, "/snapshot/")
    requires !EndsWith("/snapshot/" + pageId + "?" + query + "?" + rest, "/snapshot/service-worker.js")
    ensures RouteSnapshot("/snapshot/" + pageId + "?" + query + "?" + rest) == Lookup(pageId, Some(query))
  {
    var url := "/snapshot/" + pageId + "?" + query + "?" + rest;
    var tail := Split(rest, '?');
    JoinSplit(rest, '?');
    SplitFree(rest, '?');
    ConsFree(query, tail, '?');
    ConsFree(pageId, [query] + tail, '?');
    JoinCons(query, tail, '?');
    JoinCons(pageId, [query] + tail, '?');
    var parts := [pageId] + ([query] + tail);
    assert url[10..] == pageId + ['?'] + (query + ['?'] + Join(tail, '?'));
    SplitJoin(parts, '?');
    assert parts[0] == pageId && parts[1] == query;
  }

  method ServeSnapshotRoot(response: ServerResponse<Body>) returns (handled: bool)
    modifies response
    ensures handled && response.statusCode == 200 && response.body == Some(ViewerPage)
    ensures response.headers == WithHeader(WithHeader(old(response.headers), "Cache-Control", Text(LongCache)),
                                           "Content-Type", Text("text/html"))
  {
    response.statusCode := 200;
    response.SetHeader("Cache-Control", Text(LongCache));
    response.SetHeader("Content-Type", Text("text/html"));
    response.End(ViewerPage);
    return true;
  }

  method ServeServiceWorker(response: ServerResponse<Body>) returns (handled: bool)
    modifies response
    ensures handled && response.statusCode == 200 && response.body == Some(ServiceWorkerScript)
    ensures response.headers == WithHeader(WithHeader(old(response.headers), "Cache-Control", Text(LongCache)),
                                           "Content-Type", Text("application/javascript"))
  {
    response.statusCode := 200;
    response.SetHeader("Cache-Control", Text(LongCache));
    response.SetHeader("Content-Type", Text("application/javascript"));
    response.End(ServiceWorkerScript);
    return true;
  }

  /**
   * `_serveSnapshot`: always handled with status 200 and the long-lived cache
   * header; the viewer page, the worker script, or the chosen snapshot as JSON.
   * `parseQuery` stands for `querystring.parse`; a URL without `?` has no query.
   */
  method ServeSnapshot(st: Storage, url: string, parseQuery: string -> Query, response: ServerResponse<Body>)
    returns (handled: bool)
    modifies response
    ensures handled && response.statusCode == 200
    ensures Key("Cache-Control") in response.headers && response.headers[Key("Cache-Control")] == Text(LongCache)
    ensures RouteSnapshot(url) == Root ==>
      && response.body == Some(ViewerPage)
      && response.headers == WithHeader(WithHeader(old(response.headers), "Cache-Control", Text(LongCache)),
                                        "Content-Type", Text("text/html"))
    ensures RouteSnapshot(url) == Worker ==>
      && response.body == Some(ServiceWorkerScript)
      && response.headers == WithHeader(WithHeader(old(response.headers), "Cache-Control", Text(LongCache)),
                                        "Content-Type", Text("application/javascript"))
    ensures RouteSnapshot(url).Lookup? ==>
      var route := RouteSnapshot(url);
      var q := if route.query.Some? then parseQuery(route.query.value) else Query(None, None);
      && response.body == Some(SnapshotJson(ChooseSnapshot(st, route.pageId, q)))
      && response.headers == WithHeader(WithHeader(old(response.headers), "Cache-Control", Text(LongCache)),
                                        "Content-Type", Text("application/json"))
  {
    HeaderKeys();
    if EndsWith(url, "/snapshot/") {
      handled := ServeSnapshotRoot(response);
      return;
    }
    if EndsWith(url, "/snapshot/service-worker.js") {
      handled := ServeServiceWorker(response);
      return;
    }

    response.statusCode := 200;
    response.SetHeader("Cache-Control", Text(LongCache));
    response.SetHeader("Content-Type", Text("application/json"));
    var pieces := Split(url[if |url| < 10 then |url| else 10..], '?');
    var pageId := pieces[0];
    var parsed := if |pieces| > 1 then parseQuery(pieces[1]) else Query(None, None);

    var snapshot;
    if parsed.name.Some? && parsed.name.value != "" {
      snapshot := if (pageId, parsed.name.value) in st.byName then Some(st.byName[(pageId, parsed.name.value)]) else None;
    } else {
      snapshot := if (pageId, parsed.time) in st.byTime then Some(st.byTime[(pageId, parsed.time)]) else None;
    }
    var snapshotData := if snapshot.Some? then snapshot.value else EmptySnapshot;
    response.End(SnapshotJson(snapshotData));
    return true;
  }
}
