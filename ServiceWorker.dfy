/**
 * The replay proxy: the service worker whose source `_serveServiceWorker`
 * serves (`serviceWorkerMain` in src/server/snapshot/snapshotServer.ts).
 * Only its decisions are modelled: which requests go to the network as they
 * are, which navigation registers a document's resource mapping, which
 * resource URL is fetched, when the answer is a 404, and when the copied
 * response is marked `no-cache`. Fetches the worker makes are parameters.
 */
module ServiceWorker {
  import opened Wrappers
  import opened Strings
  import opened Headers
  import opened SnapshotServer

  /**
   * `removeHash`: the URL without its fragment. `parses` says whether
   * `new URL(url)` succeeds; on success the URL is taken to be in its
   * serialized form, where the first `#` starts the fragment.
   */
  function RemoveHash(url: string, parses: string -> bool): (r: string)
  {
    if !parses(url) then url
    else
      var i := IndexOf(url, '#', 0);
      if i == -1 then url else url[..i]
  }

  /**
   * A parsed URL loses its fragment and exactly that: what remains holds no
   * `#` and is either the whole URL or what stands before its first `#`. An
   * unparsable URL is returned as it is.
   */
  lemma RemoveHashSpec(url: string, parses: string -> bool)
    ensures parses(url) ==> Free(RemoveHash(url, parses), '#') && StartsWith(url, RemoveHash(url, parses))
    ensures parses(url) ==> RemoveHash(url, parses) == url || StartsWith(url, RemoveHash(url, parses) + "#")
    ensures parses(url) && Free(url, '#') ==> RemoveHash(url, parses) == url
    ensures !parses(url) ==> RemoveHash(url, parses) == url
  {
    var r := RemoveHash(url, parses);
    IndexOfFirst(url, '#', 0);
    assert url[..|r|] == r;
    if r != url {
      var i := |r|;
      assert url[i] == '#';
      assert url[..i + 1] == r + "#";
    }
  }

  /** Removing the fragment twice is removing it once. */
  lemma RemoveHashIdempotent(url: string, parses: string -> bool)
    ensures RemoveHash(RemoveHash(url, parses), parses) == RemoveHash(url, parses)
  {
    RemoveHashSpec(url, parses);
    if parses(url) {
      RemoveHashSpec(RemoveHash(url, parses), parses);
    }
  }

  /** A URL with a fragment names the same resource as the URL without it. */
  lemma FragmentIgnored(url: string, fragment: string, parses: string -> bool)
    requires Free(url, '#') && parses(url) && parses(url + "#" + fragment)
    ensures RemoveHash(url + "#" + fragment, parses) == RemoveHash(url, parses) == url
  {
    var u := url + "#" + fragment;
    assert u[|url|] == '#';
    assert forall k :: 0 <= k < |url| ==> u[k] == url[k];
    IndexOfFirst(u, '#', 0);
    assert IndexOf(u, '#', 0) == |url|;
    assert u[..|url|] == url;
    RemoveHashSpec(url, parses);
  }

  /** A mapping entry is fetched through `/override/` when its `sha1` is a non-empty string. */
  predicate HasOverride(r: ResourceRef) {
    r.sha1.Some? && r.sha1.value != ""
  }

  /** The server path the worker fetches a resource from. */
  function FetchUrl(r: ResourceRef): string {
    if HasOverride(r) then "/resources/" + r.resourceId + "/override/" + r.sha1.value
    else "/resources/" + r.resourceId
  }

  lemma OverrideUrlParts(id: string, sha1: string)
    ensures "/resources/" + id + "/override/" + sha1 == ['/'] + Join(["resources", id, "override", sha1], '/')
  {
    var parts := ["resources", id, "override", sha1];
    assert parts[1..][1..][1..] == [sha1];
    assert Join(parts[2..], '/') == "override" + ['/'] + sha1;
    assert Join(parts[1..], '/') == id + ['/'] + ("override" + ['/'] + sha1);
  }

  lemma DefaultUrlParts(id: string)
    ensures "/resources/" + id == ['/'] + Join(["resources", id], '/')
  {
    var parts := ["resources", id];
    assert parts[1..] == [id];
  }

  /**
   * The server accepts every URL the worker fetches, and serves the entry's
   * override digest exactly when the entry has one; record ids and digests
   * hold no `/`, and an entry without an override has a non-empty id.
   */
  lemma FetchUrlIsServed(r: ResourceRef, record: ResourceRecord)
    requires Free(r.resourceId, '/')
    requires HasOverride(r) ==> Free(r.sha1.value, '/')
    requires !HasOverride(r) ==> r.resourceId != ""
    ensures ParseResourcePath(FetchUrl(r)) == Some(ResourcePath(r.resourceId, if HasOverride(r) then r.sha1 else None))
    ensures EffectiveSha1(ParseResourcePath(FetchUrl(r)).value, record)
         == if HasOverride(r) then r.sha1.value else record.responseSha1
  {
    var p := ResourcePath(r.resourceId, if HasOverride(r) then r.sha1 else None);
    if HasOverride(r) {
      OverrideUrlParts(r.resourceId, r.sha1.value);
      assert ResourcePathParts(p) == ["resources", r.resourceId, "override", r.sha1.value];
    } else {
      DefaultUrlParts(r.resourceId);
      assert ResourcePathParts(p) == ["resources", r.resourceId];
    }
    assert FetchUrl(r) == Slashed(Join(ResourcePathParts(p), '/'), true, false);
    ResourcePathAccepted(p, true, false);
  }

  /** What the worker sees of a fetch event. */
  datatype Request = Request(
    url: string,                // request.url
    pathname: string,           // new URL(request.url).pathname
    navigate: bool,             // request.mode === 'navigate'
    clientUrl: Option<string>)  // the URL of the requesting client, when it still exists

  /** A response obtained with `fetch`. */
  datatype Fetched = Fetched(status: int, headers: HeaderMap, body: Bytes)

  /** What the worker answers a fetch event with. */
  datatype Reply =
    | Live                      // `fetch(event.request)`: the request is sent on unchanged
    | Page(html: string)        // the snapshot's HTML as `text/html`, status 200
    | NotAvailable              // the "Snapshot is not available" page, status 200
    | NotFound                  // `respond404()`
    | Copied(response: Fetched) // the fetched resource, copied so its URL is the request's own
    | Rejected                  // the promise given to `respondWith` rejects

  /** Per-document resource mappings; `None` is an `undefined` stored by `set`. */
  type Mappings = map<string, Option<map<string, ResourceRef>>>

  /**
   * `doFetch`. `snapshotOf` is the JSON the server returns for a navigation
   * URL and `resourceAt` the response of fetching a `/resources/` path; None
   * is a fetch (or JSON parse) that rejects. Returns the reply and the mappings
   * afterwards.
   */
  function Respond(m: Mappings, req: Request, parses: string -> bool,
                   snapshotOf: string -> Option<RenderedSnapshot>,
                   resourceAt: string -> Option<Fetched>): (Reply, Mappings)
  {
    if req.pathname == "/snapshot/service-worker.js" || req.pathname == "/snapshot/" then (Live, m)
    else if req.navigate then
      match snapshotOf(req.url)
      case None => (Rejected, m)
      case Some(s) =>
        if s.html == "" then (NotAvailable, m)
        else (Page(s.html), m[req.url := s.resources])
    else if req.clientUrl.None? || req.clientUrl.value !in m || m[req.clientUrl.value].None? then (Rejected, m)
    else
      var resources := m[req.clientUrl.value].value;
      var key := RemoveHash(req.url, parses);
      if key !in resources then (NotFound, m)
      else
        var resource := resources[key];
        match resourceAt(FetchUrl(resource))
        case None => (Rejected, m)
        case Some(f) =>
          var headers := if HasOverride(resource) then WithHeader(f.headers, "Cache-Control", Text("no-cache")) else f.headers;
          (Copied(Fetched(f.status, headers, f.body)), m)
  }

  /** Only a navigation with a non-empty snapshot changes the mappings, and only its own document's entry. */
  lemma RespondMappings(m: Mappings, req: Request, parses: string -> bool,
                        snapshotOf: string -> Option<RenderedSnapshot>, resourceAt: string -> Option<Fetched>)
    ensures var (reply, m') := Respond(m, req, parses, snapshotOf, resourceAt);
      && (reply.Page? ==> m' == m[req.url := snapshotOf(req.url).value.resources])
      && (!reply.Page? ==> m' == m)
  {
  }

  /** The two bootstrap paths always go to the network untouched. */
  lemma BootstrapPathsLive(m: Mappings, req: Request, parses: string -> bool,
                           snapshotOf: string -> Option<RenderedSnapshot>, resourceAt: string -> Option<Fetched>)
    ensures Respond(m, req, parses, snapshotOf, resourceAt).0 == Live
        <==> req.pathname == "/snapshot/service-worker.js" || req.pathname == "/snapshot/"
  {
  }

  /**
   * A sub-resource request of a registered document gets a 404 exactly when
   * its fragment-less URL is not in the document's mapping; otherwise it gets
   * the copy of what the server returned for the entry's fetch URL, marked
   * `no-cache` exactly when the entry carries an override digest.
   */
  lemma SubresourceReply(m: Mappings, req: Request, parses: string -> bool,
                         snapshotOf: string -> Option<RenderedSnapshot>, resourceAt: string -> Option<Fetched>)
    requires !(req.pathname == "/snapshot/service-worker.js" || req.pathname == "/snapshot/")
    requires !req.navigate && req.clientUrl.Some? && req.clientUrl.value in m && m[req.clientUrl.value].Some?
    ensures var resources := m[req.clientUrl.value].value;
      var key := RemoveHash(req.url, parses);
      var reply := Respond(m, req, parses, snapshotOf, resourceAt).0;
      && (reply == NotFound <==> key !in resources)
      && (key in resources && resourceAt(FetchUrl(resources[key])).Some? ==>
            var f := resourceAt(FetchUrl(resources[key])).value;
            && reply.Copied?
            && reply.response.status == f.status && reply.response.body == f.body
            && (HasOverride(resources[key]) ==> HeaderOf(reply.response.headers, "Cache-Control") == Some(Text("no-cache")))
            && (HasOverride(resources[key]) ==> forall k :: k != Key("Cache-Control") ==>
                  (k in reply.response.headers <==> k in f.headers) && (k in f.headers ==> reply.response.headers[k] == f.headers[k]))
            && (!HasOverride(resources[key]) ==> reply.response.headers == f.headers))
  {
  }

  /** Requests that differ only in their URL's fragment get the same reply. */
  lemma FragmentInsensitiveReply(m: Mappings, req: Request, fragment: string, parses: string -> bool,
                                 snapshotOf: string -> Option<RenderedSnapshot>, resourceAt: string -> Option<Fetched>)
    requires !req.navigate && Free(req.url, '#') && parses(req.url) && parses(req.url + "#" + fragment)
    ensures Respond(m, req.(url := req.url + "#" + fragment), parses, snapshotOf, resourceAt)
         == Respond(m, req, parses, snapshotOf, resourceAt)
  {
    FragmentIgnored(req.url, fragment, parses);
  }

  /**
   * After a navigation registers a document, a sub-resource request from that
   * document is answered from the mapping the navigation received.
   */
  lemma NavigationThenResource(m: Mappings, nav: Request, sub: Request, parses: string -> bool,
                               snapshotOf: string -> Option<RenderedSnapshot>, resourceAt: string -> Option<Fetched>)
    requires nav.navigate && !(nav.pathname == "/snapshot/service-worker.js" || nav.pathname == "/snapshot/")
    requires snapshotOf(nav.url).Some? && snapshotOf(nav.url).value.html != ""
    requires snapshotOf(nav.url).value.resources.Some?
    requires !sub.navigate && !(sub.pathname == "/snapshot/service-worker.js" || sub.pathname == "/snapshot/")
    requires sub.clientUrl == Some(nav.url)
    ensures var (navReply, m') := Respond(m, nav, parses, snapshotOf, resourceAt);
      var resources := snapshotOf(nav.url).value.resources.value;
      var key := RemoveHash(sub.url, parses);
      && navReply == Page(snapshotOf(nav.url).value.html)
      && (Respond(m', sub, parses, snapshotOf, resourceAt).0 == NotFound <==> key !in resources)
      && (key in resources && resourceAt(FetchUrl(resources[key])).Some? ==>
            Respond(m', sub, parses, snapshotOf, resourceAt).0.Copied?)
  {
    var m' := Respond(m, nav, parses, snapshotOf, resourceAt).1;
    assert m'[nav.url] == snapshotOf(nav.url).value.resources;
  }

  /** The worker's module-level state: the resource mapping of every document it has served. */
  class Worker {
    var snapshotResources: Mappings

    constructor ()
      ensures snapshotResources == map[]
    {
      snapshotResources := map[];
    }

    /** The `fetch` event handler. */
    method DoFetch(req: Request, parses: string -> bool,
                   snapshotOf: string -> Option<RenderedSnapshot>, resourceAt: string -> Option<Fetched>)
      returns (reply: Reply)
      modifies this
      ensures (reply, snapshotResources) == Respond(old(snapshotResources), req, parses, snapshotOf, resourceAt)
    {
      if req.pathname == "/snapshot/service-worker.js" || req.pathname == "/snapshot/" {
        return Live;
      }
      if req.navigate {
        var snapshotUrl := req.url;
        var json := snapshotOf(req.url);
        if json.None? {
          return Rejected;
        }
        if json.value.html == "" {
          return NotAvailable;
        }
        snapshotResources := snapshotResources[snapshotUrl := json.value.resources];
        return Page(json.value.html);
      }
      if req.clientUrl.None? {
        return Rejected;
      }
      var snapshotUrl := req.clientUrl.value;
      if snapshotUrl !in snapshotResources || snapshotResources[snapshotUrl].None? {
        return Rejected;
      }
      var resources := snapshotResources[snapshotUrl].value;
      var urlWithoutHash := RemoveHash(req.url, parses);
      if urlWithoutHash !in resources {
        return NotFound;
      }
      var resource := resources[urlWithoutHash];
      var fetchUrl := if HasOverride(resource)
        then "/resources/" + resource.resourceId + "/override/" + resource.sha1.value
        else "/resources/" + resource.resourceId;
      var fetched := resourceAt(fetchUrl);
      if fetched.None? {
        return Rejected;
      }
      var headers := fetched.value.headers;
      if HasOverride(resource) {
        headers := WithHeader(headers, "Cache-Control", Text("no-cache"));
      }
      return Copied(Fetched(fetched.value.status, headers, fetched.value.body));
    }
  }
}
