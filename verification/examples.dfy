/** Concrete runs of the model: the classifier cases, the path example and an end-to-end scan. */
module Examples {
  import opened Wrappers
  import opened Decimal
  import opened Codes
  import opened Request
  import opened Report
  import opened Discover

  /** A deny list of 404 reports 500 and 200 and hides 404, whatever the success list holds. */
  lemma DenyListExample()
    ensures |Emit(500, "w", 0, [200], [404], false)| == 1
    ensures |Emit(404, "w", 0, [], [404], false)| == 0
    ensures |Emit(200, "w", 0, [], [404], false)| == 1
  {
  }

  /** An allow list of 200 and 301 shows only those two codes. */
  lemma AllowListExample()
    ensures |Emit(404, "w", 0, [200, 301], [], false)| == 0
    ensures |Emit(200, "w", 0, [200, 301], [], false)| == 1
    ensures |Emit(301, "w", 0, [200, 301], [], false)| == 1
  {
    assert [200, 301] == [200] + [301];
    assert multiset([200, 301]) == multiset{200, 301};
  }

  /** A duplicated allow-list entry prints its line twice; no lists print everything. */
  lemma DuplicateAndDefaultExample()
    ensures |Emit(200, "w", 0, [200, 200], [], false)| == 2
    ensures |Emit(418, "w", 0, [], [], false)| == 1
  {
    assert multiset([200, 200]) == multiset{200, 200};
  }

  /** Prefix `api/`, extension `json` and word `users` request `http://x/api/users.json`. */
  lemma BuilderExample()
    ensures EffectivePath("api/", "users", "json") == "api/users.json"
    ensures RequestFor(Config("http://x/", "", "", "", "json", "api/", DefaultUserAgent, "", [], []), "users").url
            == "http://x/api/users.json"
  {
  }

  /** The `%d` forms of the codes and sizes the examples print. */
  lemma ItoaExamples()
    ensures Itoa(200) == "200" && Itoa(404) == "404" && Itoa(5) == "5"
  {
    assert NatToDigits(2) == "2";
    assert NatToDigits(20) == "20";
    assert NatToDigits(4) == "4";
    assert NatToDigits(40) == "40";
  }

  /** `-s 200` parses to the one code 200. */
  lemma SuccessListExample()
    ensures CleanCodes("200") == Success([200])
  {
    CleanCodesRoundTrip([200]);
    ItoaExamples();
    assert FormatCodes([200]) == "200";
  }

  /** The configuration `-u http://x -s 200` sets up. */
  function ExampleOptions(): Options {
    Options("http://x", "", "", "", "", "200", "", DefaultUserAgent, None, "")
  }

  /** The configuration `ExampleOptions` sets up to. */
  function ExampleConfig(): Config {
    Config("http://x/", "", "", "", "", "", DefaultUserAgent, "", [200], [])
  }

  /** `http://x` gains its trailing slash. */
  lemma ExampleTarget()
    ensures NormalizeTarget("http://x") == "http://x/"
  {
    assert !HasSuffix("http://x", "/");
  }

  /** Setting up `-u http://x -s 200` gives `ExampleConfig`. */
  lemma ExampleSetup()
    ensures Setup(ExampleOptions()) == Success(ExampleConfig())
  {
    SuccessListExample();
    ExampleTarget();
  }

  /** A server answering 404 to `/missing` and 200 with a five-byte body to everything else. */
  function ExampleServer(): Request -> Reply {
    (req: Request) => if req.url == "http://x/missing" then Received(404, 9) else Received(200, 5)
  }

  /** `http.NewRequest` accepting every URL. */
  function AcceptAll(): string -> bool {
    _ => true
  }

  /** The example server answers 200 with five bytes to the request for any word but `missing`. */
  lemma ExampleReply(w: string)
    requires w != "missing"
    ensures ExampleServer()(RequestFor(ExampleConfig(), w)) == Received(200, 5)
  {
    var req := RequestFor(ExampleConfig(), w);
    assert req.url == "http://x/" + w;
    assert req.url[9..] == w;
    assert "http://x/missing"[9..] == "missing";
  }

  /** Status 200 against the success list `200` prints one line. */
  lemma ExampleEmit(w: string)
    ensures Emit(200, w, 5, [200], [], false) == ["/" + w + " 200 5"]
  {
    ItoaExamples();
    assert [200][1..] == [];
    assert SuccessLines([200], 200, w, 5) == [Line(w, 200, 5)];
    assert Line(w, 200, 5) == "/" + w + " 200 5";
  }

  /** Any word but `missing` prints one line with status 200 and size 5. */
  lemma ExampleWord(w: string, line: string)
    requires w != "missing" && line == "/" + w + " 200 5"
    ensures Worker(ExampleConfig(), AcceptAll(), ExampleServer())(w) == [line]
  {
    var cfg := ExampleConfig();
    WorkerApplies(cfg, AcceptAll(), ExampleServer(), w);
    ExampleReply(w);
    ExampleEmit(w);
    assert EffectivePath("", w, "") == w;
    var p := DoReq(cfg.target, cfg.host, w, cfg.customKey, cfg.customVal, cfg.userAgent, cfg.cookies,
                   AcceptAll(), ExampleServer());
    assert p == Probe(200, w, 5, false);
  }

  /** The word `missing` gets a 404, which the success list `200` does not print. */
  lemma ExampleMissing()
    ensures Worker(ExampleConfig(), AcceptAll(), ExampleServer())("missing") == []
  {
    WorkerApplies(ExampleConfig(), AcceptAll(), ExampleServer(), "missing");
    assert RequestFor(ExampleConfig(), "missing").url == "http://x/missing";
    assert multiset([200])[404] == 0;
  }

  /** The concatenation over the three example words, for any worker whose `missing` output is empty. */
  lemma ThreeWords(f: string -> seq<string>, a: seq<string>, b: seq<string>)
    requires f("admin") == a && f("login") == b && f("missing") == []
    ensures FlatMap(["admin", "login", "missing"], f) == a + b
  {
    var words := ["admin", "login", "missing"];
    assert words[1..] == ["login", "missing"];
    assert words[1..][1..] == ["missing"];
    assert words[1..][1..][1..] == [];
  }

  lemma ExampleScan()
    ensures Scan(ExampleConfig(), ["admin", "login", "missing"], AcceptAll(), ExampleServer()) == ["/admin 200 5", "/login 200 5"]
  {
    var f := Worker(ExampleConfig(), AcceptAll(), ExampleServer());
    ExampleWorker(f);
    ThreeWords(f, ["/admin 200 5"], ["/login 200 5"]);
  }

  /** What the example worker prints for each of the three words. */
  lemma ExampleWorker(f: string -> seq<string>)
    requires f == Worker(ExampleConfig(), AcceptAll(), ExampleServer())
    ensures f("admin") == ["/admin 200 5"] && f("login") == ["/login 200 5"] && f("missing") == []
  {
    ExampleWord("admin", "/admin 200 5");
    ExampleWord("login", "/login 200 5");
    ExampleMissing();
  }

  /**
   Target `http://x` without a trailing slash, words `admin`, `login` and
   `missing`, success list `200`, and the example server: exactly the lines
   for `admin` and `login`.
   */
  lemma EndToEndExample()
    ensures Setup(ExampleOptions()).Success?
    ensures Scan(Setup(ExampleOptions()).value, ["admin", "login", "missing"], AcceptAll(), ExampleServer())
            == ["/admin 200 5", "/login 200 5"]
  {
    ExampleSetup();
    ExampleScan();
  }
}
