/**
 * The request logic of the caching proxy: the in-memory cache from
 * upstream URL to response body, the cache file it is loaded from at
 * startup and rewritten to after every miss, the GET handler's three
 * outcomes (hit, miss, fetch failure) and clearing the cache file.
 *
 * The origin server is a parameter: a function from the upstream URL to
 * what opening and reading that URL gives. The cache file is an optional
 * copy of the map: None when no file exists.
 */
module CachingProxy {
  import opened Wrappers

  type Bytes = seq<bv8>

  /** The outcome of opening and reading an upstream URL. */
  datatype Fetch =
    | Fetched(content: Bytes)
    | UrlError(reason: string)
    | OtherError(description: string)

  /** What the handler sends back: a response with an `X-Cache` header and
      a body, or an error page with a status and a message. */
  datatype Response =
    | Served(status: nat, xCache: string, body: Bytes)
    | ErrorPage(status: nat, message: string)

  const RemovedNotice: string := "Cache removed"

  /** The upstream URL of a request: the origin followed by the request path. */
  function UpstreamUrl(origin: string, path: string): (url: string)
    ensures |url| == |origin| + |path| && url[..|origin|] == origin && url[|origin|..] == path
  {
    origin + path
  }

  const UrlErrorPrefix: string := "Error fetching "
  const OtherErrorPrefix: string := "Unexpexted error: "

  /** The message of the error page for a failed fetch of `url`: for a
      URLError it names the URL and ends with the reason, for any other
      error it ends with the error's text. The two kinds start differently. */
  function FailureMessage(url: string, failure: Fetch): (message: string)
    requires !failure.Fetched?
    ensures failure.UrlError? ==>
      && |message| == |UrlErrorPrefix| + |url| + 2 + |failure.reason|
      && message[..|UrlErrorPrefix|] == UrlErrorPrefix
      && message[|UrlErrorPrefix|..|UrlErrorPrefix| + |url|] == url
      && message[|UrlErrorPrefix| + |url|..|UrlErrorPrefix| + |url| + 2] == ": "
      && message[|message| - |failure.reason|..] == failure.reason
    ensures failure.OtherError? ==>
      && |message| == |OtherErrorPrefix| + |failure.description|
      && message[..|OtherErrorPrefix|] == OtherErrorPrefix
      && message[|OtherErrorPrefix|..] == failure.description
    ensures message[0] == if failure.UrlError? then 'E' else 'U'
  {
    match failure
    case UrlError(reason) => UrlErrorPrefix + url + ": " + reason
    case OtherError(description) => OtherErrorPrefix + description
  }

  /** The process state the handler works on. `fetches` lists the URLs
      handed to the origin and `persists` counts the rewrites of the cache
      file; both are ghost, kept only to state how often those effects
      happen. */
  class Proxy {
    var cache: map<string, Bytes>
    var cacheFile: Option<map<string, Bytes>>
    ghost var fetches: seq<string>
    ghost var persists: nat

    /** There is no cache file, or it holds exactly the in-memory cache. */
    predicate FileMirrorsCache()
      reads this
    {
      cacheFile.None? || cacheFile == Some(cache)
    }

    /** Startup: an empty cache, replaced by the file's map when the file exists. */
    constructor Start(file: Option<map<string, Bytes>>)
      ensures cacheFile == file
      ensures file.None? ==> cache == map[]
      ensures file.Some? ==> cache == file.value
      ensures fetches == [] && persists == 0 && FileMirrorsCache()
    {
      cache := map[];
      cacheFile := file;
      if file.Some? {
        cache := file.value;
      }
      fetches := [];
      persists := 0;
    }

    /** `do_GET`. A hit is served from the cache without a fetch. On a miss
        the URL is fetched; a body is stored under the URL, the whole cache
        is written to the file and the body is sent with status 301; a
        failure is reported with status 500 and leaves cache and file as
        they were. */
    method DoGet(origin: string, path: string, server: string -> Fetch) returns (response: Response)
      modifies this
      ensures old(FileMirrorsCache()) ==> FileMirrorsCache()
      ensures forall u | u in old(cache) :: u in cache && cache[u] == old(cache)[u]
      ensures var url := UpstreamUrl(origin, path);
        if url in old(cache) then
          && response == Served(200, "HIT", old(cache)[url])
          && cache == old(cache) && cacheFile == old(cacheFile)
          && fetches == old(fetches) && persists == old(persists)
        else
          && fetches == old(fetches) + [url]
          && match server(url)
             case Fetched(content) =>
               && response == Served(301, "MISS", content)
               && cache == old(cache)[url := content]
               && cacheFile == Some(cache) && persists == old(persists) + 1
             case _ =>
               && response == ErrorPage(500, FailureMessage(url, server(url)))
               && cache == old(cache) && cacheFile == old(cacheFile) && persists == old(persists)
    {
      var url := UpstreamUrl(origin, path);
      if url in cache {
        response := Served(200, "HIT", cache[url]);
        return;
      }
      fetches := fetches + [url];
      var outcome := server(url);
      if outcome.Fetched? {
        cache := cache[url := outcome.content];
        response := Served(301, "MISS", cache[url]);
        cacheFile := Some(cache);
        persists := persists + 1;
      } else {
        response := ErrorPage(500, FailureMessage(url, outcome));
      }
    }

    /** `clear_cache`: remove the cache file if there is one, print the
        notice and exit with status 0. */
    method ClearCache() returns (notice: string, exitCode: int)
      modifies this
      ensures cacheFile == None && notice == RemovedNotice && exitCode == 0 && FileMirrorsCache()
      ensures cache == old(cache) && fetches == old(fetches) && persists == old(persists)
    {
      if cacheFile.Some? {
        cacheFile := None;
      }
      notice := RemovedNotice;
      exitCode := 0;
    }
  }

  /** Two requests for the same path, starting from an empty cache; the
      origin may answer the second fetch differently from the first. A
      fetched body is cached, so the second request is a hit served from
      the cache without a second fetch. After a failure the URL is still
      not cached, and the second request fetches it again. */
  method RepeatedRequest(origin: string, path: string, firstServer: string -> Fetch, secondServer: string -> Fetch)
    returns (first: Response, second: Response, cachedAfterFirst: bool, ghost fetched: seq<string>, ghost persisted: nat)
    ensures var url := UpstreamUrl(origin, path);
      match firstServer(url)
      case Fetched(content) =>
        first == Served(301, "MISS", content) && second == Served(200, "HIT", content)
        && cachedAfterFirst && fetched == [url] && persisted == 1
      case _ =>
        && first == ErrorPage(500, FailureMessage(url, firstServer(url))) && !cachedAfterFirst
        && fetched == [url, url]
        && match secondServer(url)
           case Fetched(content) => second == Served(301, "MISS", content) && persisted == 1
           case _ => second == ErrorPage(500, FailureMessage(url, secondServer(url))) && persisted == 0
  {
    var proxy := new Proxy.Start(None);
    first := proxy.DoGet(origin, path, firstServer);
    cachedAfterFirst := UpstreamUrl(origin, path) in proxy.cache;
    second := proxy.DoGet(origin, path, secondServer);
    fetched := proxy.fetches;
    persisted := proxy.persists;
  }

  /** The worked example: origin `http://example.test`, path `/a/b?x=1`. */
  method ExampleRequests(body: Bytes) returns (url: string, first: Response, second: Response, ghost fetched: seq<string>, ghost persisted: nat)
    ensures url == "http://example.test/a/b?x=1"
    ensures first == Served(301, "MISS", body) && second == Served(200, "HIT", body)
    ensures fetched == [url] && persisted == 1
  {
    var server := (u: string) => if u == "http://example.test/a/b?x=1" then Fetched(body) else UrlError("Not Found");
    url := UpstreamUrl("http://example.test", "/a/b?x=1");
    var cached;
    first, second, cached, fetched, persisted := RepeatedRequest("http://example.test", "/a/b?x=1", server, server);
  }

  /** The cache file written after a miss brings the entry back at the next
      startup, so the first request of the new process is a hit. */
  method RestartKeepsEntries(file: Option<map<string, Bytes>>, origin: string, path: string, content: Bytes)
    returns (first: Response, afterRestart: Response, ghost fetchedAfterRestart: seq<string>)
    requires file.Some? ==> UpstreamUrl(origin, path) !in file.value
    ensures first == Served(301, "MISS", content)
    ensures afterRestart == Served(200, "HIT", content) && fetchedAfterRestart == []
  {
    var server := (u: string) => Fetched(content);
    var proxy := new Proxy.Start(file);
    first := proxy.DoGet(origin, path, server);
    var restarted := new Proxy.Start(proxy.cacheFile);
    afterRestart := restarted.DoGet(origin, path, server);
    fetchedAfterRestart := restarted.fetches;
  }

  /** Clearing is not an error when there is no file, so clearing twice
      behaves as clearing once. */
  method ClearTwice(file: Option<map<string, Bytes>>) returns (codes: seq<int>, notices: seq<string>, left: Option<map<string, Bytes>>)
    ensures codes == [0, 0] && notices == [RemovedNotice, RemovedNotice] && left == None
  {
    var proxy := new Proxy.Start(file);
    var n1, c1 := proxy.ClearCache();
    var n2, c2 := proxy.ClearCache();
    codes, notices, left := [c1, c2], [n1, n2], proxy.cacheFile;
  }
}
