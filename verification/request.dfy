/**
 Building the request for one candidate word: the normalised target, the
 path appended to it, and the headers `doReq` sets.
 */
module Request {
  import opened Wrappers

  predicate HasSuffix(s: string, suffix: string) {
    |suffix| <= |s| && s[|s| - |suffix|..] == suffix
  }

  /** The target URL as `main` uses it: the given one, with a `/` added unless it already ends in one. */
  function NormalizeTarget(target: string): (r: string)
    ensures HasSuffix(r, "/")
    ensures target <= r && |r| <= |target| + 1
  {
    if HasSuffix(target, "/") then target else target + "/"
  }

  /** Normalising twice is normalising once; a target that ends in `/` is left as it is. */
  lemma {:induction false} NormalizeTargetIdempotent(target: string)
    ensures NormalizeTarget(NormalizeTarget(target)) == NormalizeTarget(target)
    ensures HasSuffix(target, "/") <==> NormalizeTarget(target) == target
  {
    var r := NormalizeTarget(target);
    if !HasSuffix(target, "/") {
      assert r[..|target|] == target;
      assert r[|r| - 1..] == "/";
    }
  }

  /** The path requested for word `w`: the prefix, the word, and `.` and the extension when one is set. */
  function EffectivePath(prefix: string, w: string, extension: string): (path: string)
    ensures prefix <= path
    ensures |path| == |prefix| + |w| + (if extension == "" then 0 else |extension| + 1)
  {
    var v := if extension != "" then w + "." + extension else w;
    prefix + v
  }

  /** Recovers the word from a path built with the given prefix and extension, if it is one. */
  function WordOf(prefix: string, extension: string, path: string): Option<string> {
    var tail := if extension == "" then 0 else |extension| + 1;
    if prefix <= path && |prefix| + tail <= |path|
      && (extension == "" || path[|path| - tail..] == "." + extension)
    then Some(path[|prefix|..|path| - tail])
    else None
  }

  /** The word can be read back from the path, so distinct words give distinct paths. */
  lemma {:induction false} WordOfEffectivePath(prefix: string, w: string, extension: string)
    ensures WordOf(prefix, extension, EffectivePath(prefix, w, extension)) == Some(w)
  {
    var path := EffectivePath(prefix, w, extension);
    if extension == "" {
      assert path == prefix + w;
      assert path[|prefix|..|path|] == w;
    } else {
      assert path == prefix + w + ("." + extension);
      assert path[|path| - (|extension| + 1)..] == "." + extension;
      assert path[|prefix|..|path| - (|extension| + 1)] == w;
    }
  }

  /** A request: its method (`verb`), its URL, the host override (`None` keeps the URL's host) and the header map. */
  datatype Request = Request(verb: string, url: string, host: Option<string>, header: map<string, string>)

  /**
   The request `doReq` builds for `url + word`. Header keys are taken to be in
   canonical form already. The header sets happen in the source's order, so a
   later set of the same key overwrites an earlier one.
   */
  function BuildRequest(url: string, host: string, word: string, customKey: string, customVal: string,
                        userAgent: string, cookies: string): (req: Request)
    ensures req.verb == "GET" && req.url == url + word
    ensures req.host.Some? <==> host != ""
    ensures req.host.Some? ==> req.host.value == host
    ensures req.header.Keys == {"User-Agent", "Connection"}
                               + (if customKey != "" then {customKey} else {})
                               + (if cookies != "" then {"Cookie"} else {})
    ensures req.header["User-Agent"] == userAgent
    ensures req.header["Connection"] == "close"
    ensures cookies != "" ==> req.header["Cookie"] == cookies
    ensures customKey !in {"", "User-Agent", "Connection"} && (customKey != "Cookie" || cookies == "")
            ==> req.header[customKey] == customVal
  {
    var h0: map<string, string> := map[];
    var h1 := if customKey != "" then h0[customKey := customVal] else h0;
    var h2 := if cookies != "" then h1["Cookie" := cookies] else h1;
    var h3 := h2["User-Agent" := userAgent];
    var h4 := h3["Connection" := "close"];
    Request("GET", url + word, if host != "" then Some(host) else None, h4)
  }
}
