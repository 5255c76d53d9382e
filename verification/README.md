# discover, modelled in Dafny

`discover` brute-forces paths on a web server. It reads a word list, sends one
GET request per word to a target URL, and prints a line `/path code size` for
every reply the operator asked to see. This project models the sequential
decision and string-building code that each worker runs around its HTTP call,
and proves properties of it:

- parsing of the `-s` (success) and `-f` (failure) status-code lists (`cleanCodes`), with
  `strings.Split`, `strings.TrimSpace` and `strconv.Atoi` written out;
- normalisation of the target URL, and construction of the requested path from prefix, word and extension;
- the headers `doReq` sets on each request, in order;
- the classification and printing block of the worker loop;
- the set-up in `main` that ties these together: cookie trimming, a fatal bad `-s`, an ignored bad `-f`.

Modules, one per component, all in this directory:

| file | module | models |
|---|---|---|
| wrappers.dfy | `Wrappers` | `Option` and `Result`, used for Go's `(value, error)` returns |
| text.dfy | `Text` | `strings.Split` with a one-character separator, `strings.Join`, `unicode.IsSpace`, `strings.TrimSpace` |
| decimal.dfy | `Decimal` | `strconv.Atoi` on a 64-bit platform and the `%d` verb |
| codes.dfy | `Codes` | `cleanCodes`, and `main`'s tolerant use of it for `-f` |
| request.dfy | `Request` | target normalisation, path building, the request and headers of `doReq` |
| report.dfy | `Report` | the classification and `Printf` block of the worker loop |
| discover.dfy | `Discover` | set-up, `doReq` with the network as parameters, the worker-loop body, a scan of a word list |
| examples.dfy | `Examples` | concrete runs: the classifier cases, the path example, an end-to-end scan |

The network is a pair of parameters. `accepts: string -> bool` says whether
`http.NewRequest` accepts a URL. `send: Request -> Reply` gives the server's
status code and body size, or a transport error. Because `send` is a function,
the reply depends only on the request: a server whose answer changes over time
or with load, and the client timeout (main.go:79, which also bounds the body
read) firing on one attempt but not another, are outside the model. The body
size is the number of bytes `io.Copy` read; main.go:171 ignores its error, so a
body cut short reports the bytes read before the cut, and `send` returns that
count.

Points where the code's behaviour is easy to misread:

- The custom header is set whenever its key is non-empty, even with an empty value.
- `doReq` also sets `Connection: close`, after `User-Agent`. Since later sets win, a custom header named `User-Agent` or `Connection` is always overwritten. One named `Cookie` is overwritten only when the cookie text is non-empty; otherwise it keeps its value.
- The classifier works on lists, not sets. With no failure list, a code listed k times in the success list prints its line k times. `Report.EmitMatchesPolicy` shows that reading the two lists as sets still decides whether anything is printed.
- The words are the scanner's lines as they come. Nothing trims them or drops empty ones.
- `strings.TrimSpace` trims every character `unicode.IsSpace` accepts, not only ASCII white space.
- `strconv.Atoi` also rejects values outside the 64-bit range.

## Model

| member | source | states |
|---|---|---|
| Text.TrimSpace | main.go:139 | the result has no leading or trailing white space, and it is the slice of the input left after removing only white space from both ends |
| Text.TrimSpaceUnique | main.go:139 | trimming white space + trimmed middle + white space gives exactly the middle |
| Text.TrimSpaceOfTrimmed | main.go:52 | a string without surrounding white space is unchanged by trimming |
| Text.Split | main.go:136 | splitting gives at least one field, and no field contains the separator |
| Text.SplitCount | main.go:136 | there is exactly one more field than separators in the input |
| Text.JoinSplit | main.go:136 | joining the fields with the separator rebuilds the input |
| Text.SplitJoin | main.go:136 | splitting a join of separator-free fields gives the same fields, in order |
| Text.SplitTrailingSeparator | main.go:136 | a trailing separator adds exactly one empty last field |
| Decimal.NatToDigits | main.go:113 | a non-empty digit string without leading zeros whose decimal value is the number |
| Decimal.Itoa | main.go:113 | `%d` output is a minus sign exactly for negative numbers, followed by digits with no leading zero, for negative numbers too |
| Decimal.Atoi | main.go:140 | accepted input is an optional sign and then digits, with a value in 64-bit range; an unsigned digit string in range is read as its value; the remaining cases are stated by `Decimal.AtoiCases` |
| Decimal.AtoiCases | main.go:140 | an optional `+` or `-` and then at least one digit is read as its signed value when that fits in 64 bits and is an error when it does not; every other input is an error |
| Decimal.AtoiItoa | main.go:140 | reading back the `%d` form of any 64-bit value gives that value |
| Codes.InvalidCode | main.go:142 | the error message is the trimmed field followed by the fixed text ` is not a valid status code` |
| Codes.ParseFields | main.go:137-146 | succeeds exactly when every trimmed field converts; then one code per field in order; otherwise the error names the first bad field |
| Codes.CleanCodes | main.go:132-147 | the empty string gives no codes and no error; otherwise one code per comma-separated field, in order, ignoring surrounding white space; any bad field gives an error naming the first one |
| Codes.FailureCodes | main.go:73 | the failure list is empty exactly when `-f` is empty or fails to parse; otherwise it holds one code per field |
| Codes.CleanCodesRoundTrip | main.go:132-147 | parsing the comma-joined `%d` forms of a non-empty list of 64-bit codes gives the list back |
| Codes.TrailingCommaRejected | main.go:136-143 | any list with a trailing comma, such as `200,`, is an error |
| Codes.BlankListRejected | main.go:133-143 | a non-empty list of only white space is an error, unlike the empty string |
| Request.NormalizeTarget | main.go:87-89 | the result ends in `/` and is the input, extended by at most one character |
| Request.NormalizeTargetIdempotent | main.go:87-89 | normalising twice equals normalising once, and a target is unchanged exactly when it already ends in `/` |
| Request.EffectivePath | main.go:97-100 | the path starts with the prefix, and its length is prefix plus word, plus `.` and the extension when one is set |
| Request.WordOfEffectivePath | main.go:97-100 | the word can be read back from the path, so the path is prefix + word (+ `.` + extension) |
| Request.BuildRequest | main.go:150-164 | a GET of `url + word`; the host is overridden only by a non-empty value; the header keys are exactly User-Agent, Connection, the custom key if non-empty, and Cookie if the cookies are non-empty; User-Agent always has the configured value, even an empty one; Connection is `close`; later sets win |
| Report.Line | main.go:113 | a printed line starts with `/`, the word and a space, and has room for the code, a space and the size after them |
| Report.Contains | main.go:104-111 | the failure-list scan finds the code exactly when it is in the list |
| Report.SuccessLines | main.go:120-124 | the success-list loop prints one line for each occurrence of the code |
| Report.Emit | main.go:101-124 | every line is `/word code size`; a request error prints nothing; a failure list prints one line unless the code is in it; else an empty success list prints one line and a non-empty one prints as many lines as the code occurs in it |
| Report.EmitMatchesPolicy | main.go:104-124 | a completed probe prints something exactly when the set-based policy reports its code: a deny list overrides everything, else an empty allow list allows everything |
| Report.SuccessIgnoredUnderFailure | main.go:104-116 | with a non-empty failure list the success list does not change the output |
| Report.ParseLineOfLine | main.go:113 | word, code and size can be read back from a printed line, even when the word contains spaces |
| Discover.Setup | main.go:45-89 | fails exactly when `-s` does not parse; otherwise the target is the normalised `-u`, unchanged when it already ends in `/`, the cookies are the trimmed file text or empty, the success codes follow `-s` and the failure codes follow `-f` or are empty when it does not parse |
| Discover.UnparsableFailureIgnored | main.go:73 | an unparsable `-f` sets up exactly as no `-f` at all |
| Discover.DoReq | main.go:149-173 | an error exactly when the URL is rejected or the transport fails, with the zero result; otherwise the reply's status and size and the requested path |
| Discover.RequestFor | main.go:97-100 | the request for a word is a GET of target + prefix + word (+ `.` + extension), with a host override exactly when a host is set and the configured User-Agent |
| Discover.ProcessWord | main.go:96-124 | the request URL is target + path; a rejected URL or a transport error prints nothing; otherwise the output is what the classifier prints for the reply's status and size and that path |
| Discover.Scan | main.go:95-125 | every line printed in a scan is printed for one of the words, and every line printed for a word appears in the scan; `Discover.ScanOne` and `Discover.ScanAppend` pin the output exactly |
| Discover.ScanOne | main.go:95-125 | an empty word list prints nothing and a single word prints exactly its own lines, so with ScanAppend the scan prints exactly the words' outputs, one word after another, a repeated word once per occurrence |
| Discover.ScanAppend | main.go:95-125 | the output for two word lists, one after the other, is the two outputs one after the other |
| Discover.ScanPermutation | main.go:92-129 | any reordering of the words prints the same multiset of lines, so, for replies that depend only on the request, the interleaving of workers does not change what is printed |
| Examples.DenyListExample | main.go:104-116 | with failure list 404, codes 500 and 200 print one line and 404 prints none |
| Examples.AllowListExample | main.go:117-124 | with success list 200,301, codes 200 and 301 print one line and 404 prints none |
| Examples.DuplicateAndDefaultExample | main.go:117-124 | a code listed twice prints two lines; with no lists, any code prints one line |
| Examples.BuilderExample | main.go:97-100 | prefix `api/`, extension `json` and word `users` request `http://x/api/users.json` |
| Examples.SuccessListExample | main.go:132-147 | `200` parses to the single code 200 |
| Examples.EndToEndExample | main.go:87-124 | target `http://x`, success list 200 and words admin, login, missing print exactly the admin and login lines when only missing gets a 404 |

## Left out

- Flag parsing, defaults other than the User-Agent constant, and the usage messages for a missing `-u` or `-w` (main.go:20-43): command-line glue.
- Reading the cookie file and opening the word list (main.go:45-58): file I/O. The cookie file's text is an input, and a read failure is not modelled.
- The worker count (`-c`, main.go:93): the model runs the worker body once per word, which assumes at least one worker. With `-c 0` no worker starts and nothing is printed.
- The producer goroutine, the unbuffered channel, the worker goroutines and the wait group (main.go:60-67, 92-129). `Discover.Scan` runs the worker body over the words in order. `Discover.ScanPermutation` shows that order does not change the multiset of lines. That each word reaches exactly one worker is a property of Go channels and is not modelled.
- `bufio.Scanner` line splitting: the word list is given as a sequence of strings.
- The HTTP client: its redirect policy, timeout and TLS setting (main.go:75-85). `client.Do` and the `io.Copy` byte count (main.go:165-171) are the `send` parameter.
- URL validation in `http.NewRequest` (main.go:150-153) is the `accepts` parameter.
- Canonicalisation of header keys by `http.Header.Set`: keys are taken as already canonical.
- Log output (`log.Print` at main.go:167, `log.Fatal`) and the banner line at main.go:91. A fatal `-s` error is the `Failure` result of `Discover.Setup`. Printed lines are strings in a sequence, without their trailing newline.
- Go strings are bytes. The model works on Unicode scalar values, so invalid UTF-8 is not modelled.
