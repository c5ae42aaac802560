/** The string operations behind the title search: `toLowerCase` (ASCII
    letters only) and `includes`. */
module Text {

  predicate IsUpper(c: char) {
    'A' <= c <= 'Z'
  }

  function LowerChar(c: char): (d: char)
    ensures !IsUpper(d)
    ensures !IsUpper(c) ==> d == c
    // an upper-case letter becomes the lower-case letter at the same place
    // in the alphabet
    ensures IsUpper(c) ==> 'a' <= d <= 'z' && d as int - 'a' as int == c as int - 'A' as int
  {
    if IsUpper(c) then (c as int - 'A' as int + 'a' as int) as char else c
  }

  /** `s.toLowerCase()`, restricted to the ASCII letters. */
  function ToLower(s: string): (r: string)
    ensures |r| == |s|
    ensures forall i :: 0 <= i < |r| ==> !IsUpper(r[i])
    ensures forall i :: 0 <= i < |s| && !IsUpper(s[i]) ==> r[i] == s[i]
    ensures forall i :: 0 <= i < |s| && IsUpper(s[i]) ==> r[i] == LowerChar(s[i])
  {
    if |s| == 0 then [] else [LowerChar(s[0])] + ToLower(s[1..])
  }

  /** Lower-casing twice is lower-casing once. */
  lemma ToLowerIdempotent(s: string)
    ensures ToLower(ToLower(s)) == ToLower(s)
  {
  }

  predicate StartsWith(s: string, prefix: string) {
    |prefix| <= |s| && s[..|prefix|] == prefix
  }

  /** `text.includes(query)`: the query occurs at some position, tried from
      the left; the empty query occurs everywhere. */
  predicate Contains(text: string, query: string): (b: bool)
    // the empty query is found in every text, and a query longer than the
    // text in none
    ensures |query| == 0 ==> b
    ensures b ==> |query| <= |text|
    decreases |text|
  {
    StartsWith(text, query) || (|text| > 0 && Contains(text[1..], query))
  }

  /** `query` occurs in `text` starting at position `i`. */
  predicate OccursAt(text: string, query: string, i: int) {
    0 <= i && i + |query| <= |text| && text[i..i + |query|] == query
  }

  /** The search agrees with the positional definition of a substring. */
  lemma {:induction false} ContainsIffOccurs(text: string, query: string)
    ensures Contains(text, query) <==> exists i :: OccursAt(text, query, i)
    decreases |text|
  {
    if StartsWith(text, query) {
      assert OccursAt(text, query, 0);
    } else if |text| > 0 {
      var tail := text[1..];
      ContainsIffOccurs(tail, query);
      if Contains(tail, query) {
        var i :| OccursAt(tail, query, i);
        assert text[i + 1..i + 1 + |query|] == tail[i..i + |query|];
        assert OccursAt(text, query, i + 1);
      } else {
        forall i | OccursAt(text, query, i)
          ensures false
        {
          if i > 0 {
            assert tail[i - 1..i - 1 + |query|] == text[i..i + |query|];
            assert OccursAt(tail, query, i - 1);
          }
        }
      }
    }
  }

  /** The empty query matches every text. */
  lemma EmptyQueryMatches(text: string)
    ensures Contains(text, "")
  {
  }
}
