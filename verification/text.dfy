/** The two string operations the catalog search uses: `toLowerCase` and
    `includes`. */
module Text {

  /** The capitals `LowerChar` knows: the Latin A-Z and the Cyrillic
      capitals of the basic block (U+0400-U+042F, including Ё). */
  predicate IsUpper(c: char)
  {
    'A' <= c <= 'Z' || '\U{0400}' <= c <= '\U{042F}'
  }

  /** Lower-case form of one character: a capital becomes its small letter
      (which is not a capital), every other character is returned as it is. */
  function LowerChar(c: char): (r: char)
    ensures !IsUpper(r)
    ensures !IsUpper(c) ==> r == c
  {
    if 'A' <= c <= 'Z' || '\U{0410}' <= c <= '\U{042F}' then (c as int + 32) as char
    else if '\U{0400}' <= c <= '\U{040F}' then (c as int + 80) as char
    else c
  }

  /** `s.toLowerCase()`, character by character: the same length, no
      capital left, and every character that was not a capital kept as it
      was. */
  function Lower(s: string): (r: string)
    ensures |r| == |s|
    ensures forall i :: 0 <= i < |r| ==> !IsUpper(r[i])
    ensures forall i :: 0 <= i < |s| && !IsUpper(s[i]) ==> r[i] == s[i]
  {
    seq(|s|, i requires 0 <= i < |s| => LowerChar(s[i]))
  }

  /** Lower-casing twice is lower-casing once: a lower-case form has no
      capitals left. */
  lemma LowerIdempotent(s: string)
    ensures Lower(Lower(s)) == Lower(s)
  {
    assert forall i :: 0 <= i < |s| ==> LowerChar(LowerChar(s[i])) == LowerChar(s[i]);
  }

  /** `sub` occurs in `s` starting at position `i`. */
  ghost predicate OccursAt(s: string, sub: string, i: int)
  {
    0 <= i && i + |sub| <= |s| && s[i..i + |sub|] == sub
  }

  /** `s.includes(sub)`: tries every start position from the left. The
      empty string is included in every string, and nothing longer than `s`
      is included in it. */
  function Includes(s: string, sub: string): (r: bool)
    ensures sub == [] ==> r
    ensures r ==> |sub| <= |s|
    decreases |s|
  {
    if |sub| > |s| then false
    else if s[..|sub|] == sub then true
    else Includes(s[1..], sub)
  }

  /** `Includes` holds exactly when `sub` occurs somewhere in `s`; in
      particular the empty string occurs in every string. */
  lemma {:induction false} IncludesIff(s: string, sub: string)
    ensures Includes(s, sub) <==> exists i :: OccursAt(s, sub, i)
    decreases |s|
  {
    if |sub| > |s| {
      assert forall i :: !OccursAt(s, sub, i);
    } else if s[..|sub|] == sub {
      assert OccursAt(s, sub, 0);
    } else {
      IncludesIff(s[1..], sub);
      forall i | OccursAt(s, sub, i)
        ensures OccursAt(s[1..], sub, i - 1)
      {
        assert i != 0;
        assert s[1..][i - 1..i - 1 + |sub|] == s[i..i + |sub|];
      }
      forall i | OccursAt(s[1..], sub, i)
        ensures OccursAt(s, sub, i + 1)
      {
        assert s[1..][i..i + |sub|] == s[i + 1..i + 1 + |sub|];
      }
    }
  }

  /** Every character of an included string occurs in the including one. */
  lemma IncludedChars(s: string, sub: string)
    ensures Includes(s, sub) ==> forall c :: c in sub ==> c in s
  {
    if Includes(s, sub) {
      IncludesIff(s, sub);
      var i :| OccursAt(s, sub, i);
      forall c | c in sub
        ensures c in s
      {
        var j :| 0 <= j < |sub| && sub[j] == c;
        assert s[i..i + |sub|][j] == s[i + j];
      }
    }
  }
}
