/**
 Parsing of the comma-separated status-code lists given to `-s` (success
 codes) and `-f` (failure codes): `cleanCodes` in main.go.
 */
module Codes {
  import opened Wrappers
  import opened Text
  import opened Decimal

  /** A field of the list is valid when, trimmed, `strconv.Atoi` accepts it. */
  predicate ValidField(field: string) {
    Atoi(TrimSpace(field)).Some?
  }

  predicate AllValid(fields: seq<string>) {
    forall i :: 0 <= i < |fields| ==> ValidField(fields[i])
  }

  /** `codes` holds, in order, the value of each field. */
  predicate Converts(fields: seq<string>, codes: seq<int>) {
    && |codes| == |fields|
    && forall i :: 0 <= i < |fields| ==> Atoi(TrimSpace(fields[i])) == Some(codes[i])
  }

  /** The error `cleanCodes` returns for the first field it cannot convert. */
  function InvalidCode(field: string): (msg: string)
    ensures |msg| == |field| + 27 && msg[..|field|] == field
    ensures msg[|field|..] == " is not a valid status code"
  {
    field + " is not a valid status code"
  }

  /** The conversion loop of `cleanCodes`: convert each field in order, stopping at the first bad one. */
  function ParseFields(fields: seq<string>): (r: Result<seq<int>, string>)
    ensures r.Success? <==> AllValid(fields)
    ensures r.Success? ==> Converts(fields, r.value)
    ensures r.Failure? ==> exists i :: 0 <= i < |fields| && FirstInvalid(fields, i) && r.error == InvalidCode(TrimSpace(fields[i]))
  {
    if |fields| == 0 then Success([])
    else
      var field := TrimSpace(fields[0]);
      match Atoi(field)
      case None =>
        assert FirstInvalid(fields, 0);
        Failure(InvalidCode(field))
      case Some(d) =>
        match ParseFields(fields[1..])
        case Failure(e) =>
          FirstInvalidShift(fields);
          assert !AllValid(fields[1..]);
          Failure(e)
        case Success(rest) =>
          ConvertsCons(fields, d, rest);
          Success([d] + rest)
  }

  lemma ConvertsCons(fields: seq<string>, d: int, rest: seq<int>)
    requires |fields| >= 1 && Atoi(TrimSpace(fields[0])) == Some(d)
    requires Converts(fields[1..], rest)
    ensures Converts(fields, [d] + rest) && AllValid(fields)
  {
    var codes := [d] + rest;
    forall i | 0 <= i < |fields|
      ensures Atoi(TrimSpace(fields[i])) == Some(codes[i])
    {
      if i > 0 {
        assert fields[i] == fields[1..][i - 1];
        assert codes[i] == rest[i - 1];
      }
    }
  }

  /** Field `i` is the first field that does not convert. */
  predicate FirstInvalid(fields: seq<string>, i: int)
    requires 0 <= i < |fields|
  {
    !ValidField(fields[i]) && forall j :: 0 <= j < i ==> ValidField(fields[j])
  }

  lemma FirstInvalidShift(fields: seq<string>)
    requires |fields| >= 1 && ValidField(fields[0])
    ensures forall i :: 0 <= i < |fields| - 1 && FirstInvalid(fields[1..], i) ==> FirstInvalid(fields, i + 1)
  {
    forall i | 0 <= i < |fields| - 1 && FirstInvalid(fields[1..], i)
      ensures FirstInvalid(fields, i + 1)
    {
      forall j | 0 <= j < i + 1
        ensures ValidField(fields[j])
      {
        if j > 0 {
          assert fields[j] == fields[1..][j - 1];
        }
      }
    }
  }

  /**
   `cleanCodes`: the empty string gives no codes; otherwise one code per
   comma-separated field, in order, ignoring white space around each field,
   or an error naming the first field that is not a number.
   */
  function CleanCodes(s: string): (r: Result<seq<int>, string>)
    ensures s == "" ==> r == Success([])
    ensures s != "" ==> (r.Success? <==> AllValid(Split(s, ',')))
    ensures s != "" && r.Success? ==> Converts(Split(s, ','), r.value)
    ensures r.Failure? ==>
      exists i :: 0 <= i < |Split(s, ',')| && FirstInvalid(Split(s, ','), i) && r.error == InvalidCode(TrimSpace(Split(s, ',')[i]))
  {
    if s == "" then Success([]) else ParseFields(Split(s, ','))
  }

  /** How `main` uses the `-f` list: a parse error is discarded, leaving no failure codes. */
  function FailureCodes(s: string): (codes: seq<int>)
    ensures |codes| == 0 <==> s == "" || !AllValid(Split(s, ','))
    ensures |codes| > 0 ==> Converts(Split(s, ','), codes)
  {
    match CleanCodes(s)
    case Success(codes) => codes
    case Failure(_) => []
  }

  /** The list an operator writes for some codes: their decimal forms joined by commas. */
  function FormatCodes(codes: seq<int>): string
    requires |codes| >= 1
  {
    Join(seq(|codes|, i requires 0 <= i < |codes| => Itoa(codes[i])), ',')
  }

  /** Parsing the comma-joined decimal forms of a non-empty list of 64-bit codes gives the list back. */
  lemma CleanCodesRoundTrip(codes: seq<int>)
    requires |codes| >= 1
    requires forall i :: 0 <= i < |codes| ==> InInt64(codes[i])
    ensures CleanCodes(FormatCodes(codes)) == Success(codes)
  {
    var texts := seq(|codes|, i requires 0 <= i < |codes| => Itoa(codes[i]));
    forall i | 0 <= i < |texts|
      ensures ',' !in texts[i]
      ensures Atoi(TrimSpace(texts[i])) == Some(codes[i])
    {
      ItoaField(codes[i]);
    }
    SplitJoin(texts, ',');
    JoinNonEmpty(texts, ',');
    var s := FormatCodes(codes);
    assert Split(s, ',') == texts;
    assert Converts(texts, codes);
    assert AllValid(texts);
    var r := CleanCodes(s);
    ConvertsUnique(texts, r.value, codes);
  }

  /** The `%d` form of a 64-bit code is a field that converts back to the code. */
  lemma ItoaField(n: int)
    requires InInt64(n)
    ensures ',' !in Itoa(n)
    ensures Atoi(TrimSpace(Itoa(n))) == Some(n)
  {
    var t := Itoa(n);
    assert forall k :: 0 <= k < |t| ==> t[k] != ',' && !IsSpace(t[k]);
    TrimSpaceOfTrimmed(t);
    AtoiItoa(n);
  }

  /** The codes of a list of fields are determined by the fields. */
  lemma ConvertsUnique(fields: seq<string>, a: seq<int>, b: seq<int>)
    requires Converts(fields, a) && Converts(fields, b)
    ensures a == b
  {
    assert forall i :: 0 <= i < |a| ==> Some(a[i]) == Atoi(TrimSpace(fields[i])) == Some(b[i]);
  }

  /** A trailing comma leaves an empty last field, so the whole list is rejected. */
  lemma TrailingCommaRejected(s: string)
    ensures CleanCodes(s + ",").Failure?
  {
    SplitTrailingSeparator(s, ',');
    var fields := Split(s + ",", ',');
    assert fields[|fields| - 1] == "";
    assert TrimSpace("") == "";
    assert !ValidField(fields[|fields| - 1]);
    assert !AllValid(fields);
  }

  /** A list of white space alone is not empty: its one field trims to nothing and is rejected. */
  lemma BlankListRejected(s: string)
    requires s != "" && AllSpace(s)
    ensures CleanCodes(s).Failure?
  {
    assert ',' !in s by {
      assert forall k :: 0 <= k < |s| ==> s[k] != ',';
    }
    SplitWithoutSeparator(s, ',');
    TrimSpaceUnique(s, [], []);
    assert s + [] + [] == s;
  }
}
