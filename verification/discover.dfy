/**
 The scanner: configuration set up once from the flags, then, for every word
 of the list, a request, a probe and the printed result lines.

 The network is a parameter: `accepts` says whether `http.NewRequest` accepts
 a URL, and `send` gives the reply the server sends to a request, or a
 transport failure (refused connection, timeout, TLS error).
 */
module Discover {
  import opened Wrappers
  import opened Text
  import opened Codes
  import opened Request
  import opened Report

  /** The `-a` default. */
  const DefaultUserAgent: string := "discover: https://github.com/bruston/discover"

  /**
   The flag values the scanner uses. `cookieFile` is the content of the
   `-cookies` file when that flag is given.
   */
  datatype Options = Options(
    target: string, host: string, customKey: string, customVal: string, extension: string,
    success: string, failure: string, userAgent: string, cookieFile: Option<string>, prefix: string)

  /** The immutable configuration every worker reads. */
  datatype Config = Config(
    target: string, host: string, customKey: string, customVal: string, extension: string,
    prefix: string, userAgent: string, cookies: string, successCodes: seq<int>, failureCodes: seq<int>)

  /** A `-s` or `-f` value `cleanCodes` rejects. */
  predicate InvalidCodeList(s: string) {
    s != "" && !AllValid(Split(s, ','))
  }

  /**
   The set-up part of `main`: the cookie text trimmed, the success list
   parsed with a parse error fatal, the failure list parsed with a parse error
   ignored, and the target given a trailing `/`.
   */
  function Setup(opts: Options): (r: Result<Config, string>)
    ensures r.Failure? <==> InvalidCodeList(opts.success)
    ensures r.Success? ==>
      && r.value.target == NormalizeTarget(opts.target)
      && HasSuffix(r.value.target, "/") && opts.target <= r.value.target && |r.value.target| <= |opts.target| + 1
      && (HasSuffix(opts.target, "/") ==> r.value.target == opts.target)
      && (opts.cookieFile.None? ==> r.value.cookies == "")
      && (opts.cookieFile.Some? ==> r.value.cookies == TrimSpace(opts.cookieFile.value))
      && Trimmed(r.value.cookies)
      && (opts.success == "" ==> r.value.successCodes == [])
      && (opts.success != "" ==> Converts(Split(opts.success, ','), r.value.successCodes))
      && (r.value.failureCodes == [] <==> opts.failure == "" || InvalidCodeList(opts.failure))
      && (r.value.failureCodes != [] ==> Converts(Split(opts.failure, ','), r.value.failureCodes))
      && r.value.host == opts.host && r.value.customKey == opts.customKey && r.value.customVal == opts.customVal
      && r.value.extension == opts.extension && r.value.prefix == opts.prefix && r.value.userAgent == opts.userAgent
  {
    var cookies := match opts.cookieFile
      case None => ""
      case Some(content) => TrimSpace(content);
    match CleanCodes(opts.success)
    case Failure(e) => Failure(e)
    case Success(successCodes) =>
      Success(Config(NormalizeTarget(opts.target), opts.host, opts.customKey, opts.customVal, opts.extension,
                     opts.prefix, opts.userAgent, cookies, successCodes, FailureCodes(opts.failure)))
  }

  /** What the server side does with a request. */
  datatype Reply = TransportError | Received(status: int, bodySize: nat)

  /** What `doReq` returns: the status code, the path, the body size and whether it failed. */
  datatype Probe = Probe(code: int, word: string, size: nat, err: bool)

  /**
   `doReq`: build the request for `url + word` and send it. Either failure
   yields the zero result with the error flag set.
   */
  function DoReq(url: string, host: string, word: string, customKey: string, customVal: string,
                 userAgent: string, cookies: string,
                 accepts: string -> bool, send: Request -> Reply): (p: Probe)
    ensures var req := BuildRequest(url, host, word, customKey, customVal, userAgent, cookies);
      && (p.err <==> !accepts(url + word) || send(req).TransportError?)
      && (!p.err ==> p == Probe(send(req).status, word, send(req).bodySize, false))
      && (p.err ==> p == Probe(0, "", 0, true))
  {
    if !accepts(url + word) then Probe(0, "", 0, true)
    else
      match send(BuildRequest(url, host, word, customKey, customVal, userAgent, cookies))
      case TransportError => Probe(0, "", 0, true)
      case Received(status, size) => Probe(status, word, size, false)
  }

  /**
   The request sent for word `v`: a GET of the target, the prefix, the word
   and the extension, carrying the configured User-Agent.
   */
  function RequestFor(cfg: Config, v: string): (req: Request)
    ensures req.verb == "GET"
    ensures req.url == cfg.target + cfg.prefix + v + (if cfg.extension != "" then "." + cfg.extension else "")
    ensures req.host.Some? <==> cfg.host != ""
    ensures "User-Agent" in req.header && req.header["User-Agent"] == cfg.userAgent
  {
    BuildRequest(cfg.target, cfg.host, EffectivePath(cfg.prefix, v, cfg.extension),
                 cfg.customKey, cfg.customVal, cfg.userAgent, cfg.cookies)
  }

  /**
   One iteration of a worker's loop: the lines printed for word `v`. Each is
   the path, the status and the body size of the reply to the request for
   the target followed by that same path.
   */
  function ProcessWord(cfg: Config, v: string, accepts: string -> bool, send: Request -> Reply): (lines: seq<string>)
    ensures var path := EffectivePath(cfg.prefix, v, cfg.extension);
      var reply := send(RequestFor(cfg, v));
      && RequestFor(cfg, v).url == cfg.target + path
      && (lines != [] ==> accepts(cfg.target + path) && reply.Received?)
      && (lines != [] ==> forall i :: 0 <= i < |lines| ==> lines[i] == Line(path, reply.status, reply.bodySize))
      && (accepts(cfg.target + path) && reply.Received? ==>
            lines == Emit(reply.status, path, reply.bodySize, cfg.successCodes, cfg.failureCodes, false))
      && (!accepts(cfg.target + path) || reply.TransportError? ==> lines == [])
  {
    var path := EffectivePath(cfg.prefix, v, cfg.extension);
    var p := DoReq(cfg.target, cfg.host, path, cfg.customKey, cfg.customVal, cfg.userAgent, cfg.cookies, accepts, send);
    Emit(p.code, p.word, p.size, cfg.successCodes, cfg.failureCodes, p.err)
  }

  /**
   The lines printed for a word list when one worker takes the words in order.
   Every line is printed for one of the words, and every word's lines are all
   printed.
   */
  function Scan(cfg: Config, words: seq<string>, accepts: string -> bool, send: Request -> Reply): (lines: seq<string>)
    ensures forall i :: 0 <= i < |lines| ==>
      exists j :: 0 <= j < |words| && lines[i] in ProcessWord(cfg, words[j], accepts, send)
    ensures forall j :: 0 <= j < |words| ==>
      multiset(ProcessWord(cfg, words[j], accepts, send)) <= multiset(lines)
  {
    var f := Worker(cfg, accepts, send);
    FlatMapMembers(words, f);
    FlatMapCovers(words, f);
    assert forall j :: 0 <= j < |words| ==> f(words[j]) == ProcessWord(cfg, words[j], accepts, send);
    FlatMap(words, f)
  }

  /** The body of a worker's loop, as a function of the word. */
  function Worker(cfg: Config, accepts: string -> bool, send: Request -> Reply): string -> seq<string> {
    v => ProcessWord(cfg, v, accepts, send)
  }

  /** Applying the worker lambda is running the loop body; stated once so that callers need not unfold the lambda. */
  lemma WorkerApplies(cfg: Config, accepts: string -> bool, send: Request -> Reply, v: string)
    ensures Worker(cfg, accepts, send)(v) == ProcessWord(cfg, v, accepts, send)
  {
  }

  /** The concatenation of `f(x)` over the elements of `xs`, in order. */
  function FlatMap<T>(xs: seq<T>, f: T -> seq<string>): seq<string> {
    if |xs| == 0 then [] else f(xs[0]) + FlatMap(xs[1..], f)
  }

  /** Every element of a concatenation comes from one of the parts. */
  lemma {:induction false} FlatMapMembers<T>(xs: seq<T>, f: T -> seq<string>)
    ensures forall i :: 0 <= i < |FlatMap(xs, f)| ==> exists j :: 0 <= j < |xs| && FlatMap(xs, f)[i] in f(xs[j])
  {
    if |xs| > 0 {
      FlatMapMembers(xs[1..], f);
      var first := f(xs[0]);
      var rest := FlatMap(xs[1..], f);
      var ys := FlatMap(xs, f);
      assert ys == first + rest;
      forall i | 0 <= i < |ys|
        ensures exists j :: 0 <= j < |xs| && ys[i] in f(xs[j])
      {
        if i < |first| {
          assert (first + rest)[i] in f(xs[0]);
        } else {
          var i' := i - |first|;
          assert 0 <= i' < |rest|;
          assert rest[i'] == FlatMap(xs[1..], f)[i'];
          var j :| 0 <= j < |xs[1..]| && FlatMap(xs[1..], f)[i'] in f(xs[1..][j]);
          assert xs[1..][j] == xs[j + 1];
          assert (first + rest)[i] in f(xs[j + 1]);
        }
      }
      assert forall i :: 0 <= i < |ys| ==> exists j :: 0 <= j < |xs| && ys[i] in f(xs[j]);
    } else {
      assert FlatMap(xs, f) == [];
    }
  }

  /** Each part's elements all occur in the concatenation. */
  lemma FlatMapCovers<T>(xs: seq<T>, f: T -> seq<string>)
    ensures forall j :: 0 <= j < |xs| ==> multiset(f(xs[j])) <= multiset(FlatMap(xs, f))
  {
    forall j | 0 <= j < |xs|
      ensures multiset(f(xs[j])) <= multiset(FlatMap(xs, f))
    {
      FlatMapAt(xs, j, f);
    }
  }

  lemma {:induction false} FlatMapAppend<T>(a: seq<T>, b: seq<T>, f: T -> seq<string>)
    ensures FlatMap(a + b, f) == FlatMap(a, f) + FlatMap(b, f)
  {
    if |a| == 0 {
      assert a + b == b;
    } else {
      FlatMapAppend(a[1..], b, f);
      assert (a + b)[1..] == a[1..] + b;
      assert (a + b)[0] == a[0];
      var x, y, z := f(a[0]), FlatMap(a[1..], f), FlatMap(b, f);
      assert x + (y + z) == (x + y) + z;
    }
  }

  /** Removing the same element from two permutations of each other leaves permutations. */
  lemma RemoveFromPermutation<T>(a: seq<T>, b: seq<T>, k: int)
    requires multiset(a) == multiset(b) && |a| > 0
    requires 0 <= k < |b| && b[k] == a[0]
    ensures multiset(a[1..]) == multiset(b[..k] + b[k + 1..])
  {
    var w := a[0];
    assert a == [w] + a[1..];
    assert b == b[..k] + [w] + b[k + 1..];
    var left := multiset(a[1..]);
    var right := multiset(b[..k] + b[k + 1..]);
    assert multiset(a) == multiset{w} + left;
    assert multiset(b) == multiset(b[..k]) + multiset{w} + multiset(b[k + 1..]);
    assert right == multiset(b[..k]) + multiset(b[k + 1..]);
    assert multiset(b) == multiset{w} + right;
    forall x
      ensures left[x] == right[x]
    {
      assert (multiset{w} + left)[x] == (multiset{w} + right)[x];
    }
    assert left == right;
  }

  /** The concatenation around one chosen element. */
  lemma FlatMapAt<T>(b: seq<T>, k: int, f: T -> seq<string>)
    requires 0 <= k < |b|
    ensures FlatMap(b, f) == FlatMap(b[..k], f) + f(b[k]) + FlatMap(b[k + 1..], f)
  {
    assert b == b[..k] + b[k..];
    FlatMapAppend(b[..k], b[k..], f);
    assert b[k..] == [b[k]] + b[k + 1..];
    FlatMapCons(b[k], b[k + 1..], f);
  }

  /** The concatenation of a sequence with a first element. */
  lemma FlatMapCons<T>(x: T, xs: seq<T>, f: T -> seq<string>)
    ensures FlatMap([x] + xs, f) == f(x) + FlatMap(xs, f)
  {
    assert ([x] + xs)[0] == x;
    assert ([x] + xs)[1..] == xs;
  }

  /** Reordering the parts keeps the multiset of elements. */
  lemma {:induction false} FlatMapPermutation<T>(a: seq<T>, b: seq<T>, f: T -> seq<string>)
    requires multiset(a) == multiset(b)
    ensures multiset(FlatMap(a, f)) == multiset(FlatMap(b, f))
  {
    if |a| == 0 {
      assert |b| == |multiset(b)| == 0;
    } else {
      assert a[0] in multiset(b);
      var k :| 0 <= k < |b| && b[k] == a[0];
      var rest := b[..k] + b[k + 1..];
      RemoveFromPermutation(a, b, k);
      FlatMapPermutation(a[1..], rest, f);
      FlatMapAppend(b[..k], b[k + 1..], f);
      FlatMapAt(b, k, f);
    }
  }

  /**
   No words print nothing, and a single word prints exactly its own lines.
   With `ScanAppend` this fixes the whole output: each word's lines, one word
   after another, as often as the word occurs in the list.
   */
  lemma ScanOne(cfg: Config, w: string, accepts: string -> bool, send: Request -> Reply)
    ensures Scan(cfg, [], accepts, send) == []
    ensures Scan(cfg, [w], accepts, send) == ProcessWord(cfg, w, accepts, send)
  {
    var f := Worker(cfg, accepts, send);
    FlatMapCons(w, [], f);
    assert [w] + [] == [w];
    WorkerApplies(cfg, accepts, send, w);
  }

  /** Splitting the word list splits the output. */
  lemma ScanAppend(cfg: Config, a: seq<string>, b: seq<string>, accepts: string -> bool, send: Request -> Reply)
    ensures Scan(cfg, a + b, accepts, send) == Scan(cfg, a, accepts, send) + Scan(cfg, b, accepts, send)
  {
    FlatMapAppend(a, b, Worker(cfg, accepts, send));
  }

  /**
   The printed lines do not depend on the order in which words are taken: any
   reordering of the words prints the same lines, as a multiset. This is why
   the interleaving of concurrent workers leaves the output's content fixed.
   */
  lemma ScanPermutation(cfg: Config, a: seq<string>, b: seq<string>, accepts: string -> bool, send: Request -> Reply)
    requires multiset(a) == multiset(b)
    ensures multiset(Scan(cfg, a, accepts, send)) == multiset(Scan(cfg, b, accepts, send))
  {
    FlatMapPermutation(a, b, Worker(cfg, accepts, send));
  }

  /** A `-f` value that does not parse filters nothing: the scan is the one with no failure list. */
  lemma UnparsableFailureIgnored(opts: Options)
    requires !InvalidCodeList(opts.success) && InvalidCodeList(opts.failure)
    ensures Setup(opts).Success? && Setup(opts).value.failureCodes == []
    ensures Setup(opts) == Setup(opts.(failure := ""))
  {
    var plain := opts.(failure := "");
    var cookies := match opts.cookieFile
      case None => ""
      case Some(content) => TrimSpace(content);
    var successCodes := CleanCodes(opts.success).value;
    var cfg := Config(NormalizeTarget(opts.target), opts.host, opts.customKey, opts.customVal, opts.extension,
                      opts.prefix, opts.userAgent, cookies, successCodes, []);
    assert FailureCodes(opts.failure) == [];
    assert FailureCodes(plain.failure) == [];
    assert Setup(opts) == Success(cfg);
    assert Setup(plain) == Success(cfg);
  }
}
