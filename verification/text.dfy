/** ASCII letter case. The upload filter lower-cases file extensions and
    the store's id cast lower-cases hexadecimal digits; both fold case
    the same way. */
module Text {

  /** ASCII upper case to lower case; every other character unchanged. */
  function ToLowerChar(c: char): char
  {
    if 'A' <= c <= 'Z' then (c as int + 32) as char else c
  }

  function ToLower(s: string): (r: string)
    ensures |r| == |s| && forall j :: 0 <= j < |s| ==> r[j] == ToLowerChar(s[j])
  {
    if |s| == 0 then "" else [ToLowerChar(s[0])] + ToLower(s[1..])
  }

  /** The two strings are equal when case is ignored. */
  predicate EqualIgnoringCase(a: string, b: string)
  {
    |a| == |b| && forall j :: 0 <= j < |a| ==> ToLowerChar(a[j]) == ToLowerChar(b[j])
  }

  /** Two strings lower-case to the same string exactly when they are
      equal ignoring case. */
  lemma ToLowerEqualIff(a: string, b: string)
    ensures ToLower(a) == ToLower(b) <==> EqualIgnoringCase(a, b)
  {
    if EqualIgnoringCase(a, b) {
      assert forall j :: 0 <= j < |a| ==> ToLower(a)[j] == ToLower(b)[j];
    }
    if ToLower(a) == ToLower(b) {
      forall j | 0 <= j < |a|
        ensures ToLowerChar(a[j]) == ToLowerChar(b[j])
      {
        assert ToLower(a)[j] == ToLower(b)[j];
      }
    }
  }
}
