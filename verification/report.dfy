/**
 The decision and printing block of the worker loop: how many result lines a
 probe produces, given its status code and the success and failure lists.
 */
module Report {
  import opened Wrappers
  import opened Decimal

  /** The line `fmt.Printf("/%s %d %d\n", word, code, size)` prints, without its newline. */
  function Line(word: string, code: int, size: nat): (line: string)
    ensures |line| >= |word| + 5
    ensures line[..|word| + 2] == "/" + word + " "
  {
    "/" + word + " " + Itoa(code) + " " + Itoa(size)
  }

  /** The scan of the failure list that sets `fail` and breaks at the first match. */
  function Contains(codes: seq<int>, code: int): (found: bool)
    ensures found <==> code in codes
  {
    if |codes| == 0 then false
    else if codes[0] == code then true
    else Contains(codes[1..], code)
  }

  /** The loop over the success list: one line for every entry equal to the code. */
  function SuccessLines(successCodes: seq<int>, code: int, word: string, size: nat): (lines: seq<string>)
    ensures |lines| == multiset(successCodes)[code]
    ensures forall i :: 0 <= i < |lines| ==> lines[i] == Line(word, code, size)
  {
    if |successCodes| == 0 then []
    else
      assert multiset(successCodes) == multiset{successCodes[0]} + multiset(successCodes[1..]) by {
        assert successCodes == [successCodes[0]] + successCodes[1..];
      }
      (if successCodes[0] == code then [Line(word, code, size)] else [])
      + SuccessLines(successCodes[1..], code, word, size)
  }

  /**
   The lines printed for one probe. A request error prints nothing. A
   non-empty failure list prints one line unless the code is in it, whatever
   the success list holds. Otherwise an empty success list prints one line,
   and a non-empty one prints a line for every entry equal to the code.
   */
  function Emit(code: int, word: string, size: nat, successCodes: seq<int>, failureCodes: seq<int>,
                reqErr: bool): (lines: seq<string>)
    ensures forall i :: 0 <= i < |lines| ==> lines[i] == Line(word, code, size)
    ensures reqErr ==> lines == []
    ensures !reqErr && |failureCodes| > 0 ==> |lines| == (if code in failureCodes then 0 else 1)
    ensures !reqErr && |failureCodes| == 0 && |successCodes| == 0 ==> |lines| == 1
    ensures !reqErr && |failureCodes| == 0 && |successCodes| > 0 ==> |lines| == multiset(successCodes)[code]
  {
    if reqErr then []
    else if |failureCodes| != 0 then
      if Contains(failureCodes, code) then [] else [Line(word, code, size)]
    else
      (if |successCodes| == 0 then [Line(word, code, size)] else [])
      + SuccessLines(successCodes, code, word, size)
  }

  /**
   The classification policy stated over sets of codes: a non-empty failure
   set reports every code outside it; otherwise an empty success set reports
   everything and a non-empty one reports its members.
   */
  predicate Reported(code: int, successSet: set<int>, failureSet: set<int>) {
    if failureSet != {} then code !in failureSet
    else successSet == {} || code in successSet
  }

  function ToSet(codes: seq<int>): set<int> {
    set c | c in codes
  }

  /** A completed probe prints something exactly when the set-based policy reports it. */
  lemma EmitMatchesPolicy(code: int, word: string, size: nat, successCodes: seq<int>, failureCodes: seq<int>)
    ensures |Emit(code, word, size, successCodes, failureCodes, false)| > 0
            <==> Reported(code, ToSet(successCodes), ToSet(failureCodes))
  {
    if |failureCodes| > 0 {
      assert failureCodes[0] in ToSet(failureCodes);
    } else if |successCodes| > 0 {
      assert successCodes[0] in ToSet(successCodes);
    }
  }

  /** With a failure list, the success list makes no difference. */
  lemma SuccessIgnoredUnderFailure(code: int, word: string, size: nat, success1: seq<int>, success2: seq<int>,
                                   failureCodes: seq<int>, reqErr: bool)
    requires |failureCodes| > 0
    ensures Emit(code, word, size, success1, failureCodes, reqErr) == Emit(code, word, size, success2, failureCodes, reqErr)
  {
  }

  /** A result as read back from a printed line. */
  datatype Record = Record(word: string, code: int, size: nat)

  /** Splits at the last space: the text before it and the space-free text after it. */
  function SplitLastSpace(s: string): (r: Option<(string, string)>)
    ensures r.None? <==> ' ' !in s
    ensures r.Some? ==> s == r.value.0 + " " + r.value.1 && ' ' !in r.value.1
  {
    if |s| == 0 then None
    else if s[|s| - 1] == ' ' then Some((s[..|s| - 1], ""))
    else
      match SplitLastSpace(s[..|s| - 1])
      case None =>
        assert s == s[..|s| - 1] + [s[|s| - 1]];
        None
      case Some((a, b)) =>
        assert s == s[..|s| - 1] + [s[|s| - 1]];
        Some((a, b + [s[|s| - 1]]))
  }

  /** A string has at most one split into text, a space, and space-free text. */
  lemma LastSpaceUnique(s: string, a: string, b: string, a': string, b': string)
    requires s == a + " " + b && ' ' !in b
    requires s == a' + " " + b' && ' ' !in b'
    ensures a == a' && b == b'
  {
    assert s[|a|] == ' ' && s[|a'|] == ' ';
    assert forall k :: |a| < k < |s| ==> s[k] == b[k - |a| - 1];
    assert forall k :: |a'| < k < |s| ==> s[k] == b'[k - |a'| - 1];
    assert |a'| == |a|;
    assert a == s[..|a|] == a';
    assert b == s[|a| + 1..] == b';
  }

  lemma SplitLastSpaceOf(a: string, b: string)
    requires ' ' !in b
    ensures SplitLastSpace(a + " " + b) == Some((a, b))
  {
    var s := a + " " + b;
    assert ' ' in s by { assert s[|a|] == ' '; }
    var r := SplitLastSpace(s);
    LastSpaceUnique(s, a, b, r.value.0, r.value.1);
  }

  /** Reads a printed line back: `/`, the word, the code and the size, the last two without spaces. */
  function ParseLine(line: string): Option<Record> {
    if |line| == 0 || line[0] != '/' then None
    else
      match SplitLastSpace(line[1..])
      case None => None
      case Some((rest, sizeText)) =>
        match SplitLastSpace(rest)
        case None => None
        case Some((word, codeText)) =>
          match (Atoi(codeText), Atoi(sizeText))
          case (Some(code), Some(size)) => if size >= 0 then Some(Record(word, code, size)) else None
          case _ => None
  }

  /** Every printed line can be read back, even when the word itself contains spaces. */
  lemma ParseLineOfLine(word: string, code: int, size: nat)
    requires InInt64(code) && InInt64(size)
    ensures ParseLine(Line(word, code, size)) == Some(Record(word, code, size))
  {
    var c, z := Itoa(code), Itoa(size);
    var line := Line(word, code, size);
    assert line[1..] == (word + " " + c) + " " + z;
    assert ' ' !in z by { assert forall k :: 0 <= k < |z| ==> z[k] != ' '; }
    assert ' ' !in c by { assert forall k :: 0 <= k < |c| ==> c[k] != ' '; }
    SplitLastSpaceOf(word + " " + c, z);
    SplitLastSpaceOf(word, c);
    AtoiItoa(code);
    AtoiItoa(size);
  }
}
