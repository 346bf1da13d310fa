/** The SKU value object: a format check followed by upper-casing. */
module Skus {
  import opened Common
  import opened Errors

  /** One character of the class [A-Za-z0-9_-]. */
  predicate IsSkuChar(c: char) {
    ('A' <= c <= 'Z') || ('a' <= c <= 'z') || ('0' <= c <= '9') || c == '_' || c == '-'
  }

  /**
   * The whole-string pattern ^[A-Za-z0-9_-]{3,20}$: between 3 and 20 characters,
   * all from the class. The end anchor matches only at the end of the text, so a
   * trailing newline is a character outside the class like any other.
   */
  predicate MatchesSkuPattern(s: string) {
    3 <= |s| <= 20 && forall i :: 0 <= i < |s| ==> IsSkuChar(s[i])
  }

  /** Scans the characters one by one, as the matcher does. */
  function AllSkuChars(s: string): (b: bool)
    ensures b <==> forall i :: 0 <= i < |s| ==> IsSkuChar(s[i])
  {
    if s == [] then true else IsSkuChar(s[0]) && AllSkuChars(s[1..])
  }

  /** The format check: empty input first, then the pattern. */
  function ValidateSku(value: string): (r: Option<Error>)
    ensures r == None <==> MatchesSkuPattern(value)
    ensures value == "" ==> r == Some(SkuEmpty)
    ensures value != "" && !MatchesSkuPattern(value) ==> r == Some(SkuFormat)
  {
    if value == "" then Some(SkuEmpty)
    else if !(3 <= |value| <= 20 && AllSkuChars(value)) then Some(SkuFormat)
    else None
  }

  /** Upper-casing of one ASCII character; every other character is kept. */
  function UpperAscii(c: char): char {
    if 'a' <= c <= 'z' then (c as int - 32) as char else c
  }

  /** Upper-casing of a string, character by character. */
  function ToUpper(s: string): (r: string)
    ensures |r| == |s|
    ensures forall i :: 0 <= i < |s| ==> r[i] == UpperAscii(s[i])
  {
    if s == [] then [] else [UpperAscii(s[0])] + ToUpper(s[1..])
  }

  /** A validated, upper-cased SKU. */
  datatype SKU = SKU(value: string)
  {
    function Value(): string { value }
    function String(): string { value }
    predicate Equals(other: SKU) { value == other.value }
  }

  /** Validates the raw input, then stores it upper-cased. */
  function NewSKU(value: string): (r: Result<SKU, Error>)
    ensures r.Success? <==> MatchesSkuPattern(value)
    ensures r.Failure? ==> r.error == (if value == "" then SkuEmpty else SkuFormat)
    ensures r.Success? ==> r.value.Value() == ToUpper(value) && r.value.String() == ToUpper(value)
  {
    match ValidateSku(value)
    case Some(e) => Failure(e)
    case None => Success(SKU(ToUpper(value)))
  }

  /** Two accepted inputs give equal SKUs exactly when they agree up to the case of letters. */
  lemma EqualsIgnoresCase(a: string, b: string)
    requires NewSKU(a).Success? && NewSKU(b).Success?
    ensures NewSKU(a).value.Equals(NewSKU(b).value) <==>
              |a| == |b| && forall i :: 0 <= i < |a| ==> UpperAscii(a[i]) == UpperAscii(b[i])
  {
    var ua, ub := ToUpper(a), ToUpper(b);
    if |a| == |b| && forall i :: 0 <= i < |a| ==> UpperAscii(a[i]) == UpperAscii(b[i]) {
      assert ua == ub;
    }
  }

  /** "abc-1" and "ABC-1" are both accepted and give equal SKUs. */
  lemma EqualsExample()
    ensures NewSKU("abc-1").Success? && NewSKU("ABC-1").Success?
    ensures NewSKU("abc-1").value.Equals(NewSKU("ABC-1").value)
  {
    assert MatchesSkuPattern("abc-1");
    assert MatchesSkuPattern("ABC-1");
    EqualsIgnoresCase("abc-1", "ABC-1");
  }

  /** Validation runs on the raw input, so lower-case letters are accepted. */
  lemma LowerCaseAccepted()
    ensures NewSKU("sku-abc").Success? && NewSKU("sku-abc").value.Value() == "SKU-ABC"
  {
    assert MatchesSkuPattern("sku-abc");
    var u := ToUpper("sku-abc");
    assert u == "SKU-ABC";
  }

  /** Any input followed by a newline is rejected. */
  lemma TrailingNewlineRejected(s: string)
    ensures NewSKU(s + "\n") == Failure(SkuFormat)
  {
    assert (s + "\n")[|s|] == '\n';
  }

  /** Building a SKU from a stored SKU's value succeeds and gives the same SKU back. */
  lemma {:induction false} NormalisingTwiceChangesNothing(s: string)
    requires NewSKU(s).Success?
    ensures NewSKU(NewSKU(s).value.Value()) == NewSKU(s)
  {
    var u := ToUpper(s);
    assert MatchesSkuPattern(u) by {
      forall i | 0 <= i < |u| ensures IsSkuChar(u[i]) {
        assert IsSkuChar(s[i]);
      }
    }
    var uu := ToUpper(u);
    assert uu == u;
  }
}
