/** String primitives used by the wheel-name classifier: JavaScript's
    `toLowerCase` (on ASCII letters) and `String.prototype.includes`. */
module Text {

  predicate IsUpper(c: char) {
    'A' <= c <= 'Z'
  }

  /** Lower-cases one character; only the ASCII letters A-Z are mapped. */
  function LowerChar(c: char): (r: char)
    ensures !IsUpper(r)
    ensures IsUpper(c) ==> r as int == c as int + 32
    ensures !IsUpper(c) ==> r == c
  {
    if IsUpper(c) then (c as int + 32) as char else c
  }

  /** `s.toLowerCase()`: maps every character independently. */
  function ToLower(s: string): (r: string)
    ensures |r| == |s|
    ensures forall i :: 0 <= i < |s| ==> r[i] == LowerChar(s[i])
  {
    if s == [] then [] else [LowerChar(s[0])] + ToLower(s[1..])
  }

  /** A string with no upper-case letter. */
  predicate IsLower(s: string) {
    forall i :: 0 <= i < |s| ==> !IsUpper(s[i])
  }

  /** Lower-casing a string that has no upper-case letter leaves it alone. */
  lemma LowerOfLower(s: string)
    requires IsLower(s)
    ensures ToLower(s) == s
  {
    assert forall i :: 0 <= i < |s| ==> ToLower(s)[i] == s[i];
  }

  /** Lower-casing is idempotent. */
  lemma ToLowerIdempotent(s: string)
    ensures IsLower(ToLower(s))
    ensures ToLower(ToLower(s)) == ToLower(s)
  {
    LowerOfLower(ToLower(s));
  }

  /** `sub` occurs in `s` starting at offset `i`. */
  ghost predicate OccursAt(s: string, sub: string, i: int) {
    0 <= i && i + |sub| <= |s| && s[i..i + |sub|] == sub
  }

  /** `s.includes(sub)`: tries every offset from the left; the empty string
      is included in every string. */
  function Includes(s: string, sub: string): bool
    decreases |s|
  {
    if |sub| > |s| then false
    else s[..|sub|] == sub || Includes(s[1..], sub)
  }

  /** `Includes` holds exactly when `sub` occurs at some offset of `s`. */
  lemma {:induction false} IncludesIff(s: string, sub: string)
    ensures Includes(s, sub) <==> exists i :: OccursAt(s, sub, i)
    decreases |s|
  {
    if |sub| > |s| {
    } else if s[..|sub|] == sub {
      assert OccursAt(s, sub, 0);
    } else {
      assert !OccursAt(s, sub, 0);
      IncludesIff(s[1..], sub);
      forall j | 0 <= j
        ensures OccursAt(s[1..], sub, j) <==> OccursAt(s, sub, j + 1)
      {
        if j + |sub| <= |s[1..]| {
          assert s[1..][j..j + |sub|] == s[j + 1..j + 1 + |sub|];
        }
      }
      if Includes(s, sub) {
        var j :| OccursAt(s[1..], sub, j);
        assert OccursAt(s, sub, j + 1);
      }
      if exists i :: OccursAt(s, sub, i) {
        var i :| OccursAt(s, sub, i);
        assert i != 0;
        assert OccursAt(s[1..], sub, i - 1);
      }
    }
  }

  /** Every string includes itself. */
  lemma IncludesSelf(s: string)
    ensures Includes(s, s)
  {
    assert s[..|s|] == s;
  }

  /** A string includes the strings it ends with. */
  lemma IncludesSuffix(s: string, k: nat)
    requires k <= |s|
    ensures Includes(s, s[k..])
  {
    IncludesIff(s, s[k..]);
    assert OccursAt(s, s[k..], k);
  }

  /** Lower-casing distributes over concatenation. */
  lemma ToLowerAppend(p: string, q: string)
    ensures ToLower(p + q) == ToLower(p) + ToLower(q)
  {
    assert forall i :: 0 <= i < |p + q| ==> ToLower(p + q)[i] == (ToLower(p) + ToLower(q))[i];
  }

  /** What a string includes, every string including it includes too. */
  lemma IncludesTrans(s: string, mid: string, sub: string)
    requires Includes(s, mid) && Includes(mid, sub)
    ensures Includes(s, sub)
  {
    IncludesIff(s, mid);
    IncludesIff(mid, sub);
    var i :| OccursAt(s, mid, i);
    var j :| OccursAt(mid, sub, j);
    forall k | 0 <= k < |sub|
      ensures s[i + j + k] == sub[k]
    {
      assert mid[j..j + |sub|][k] == sub[k];
      assert s[i..i + |mid|][j + k] == mid[j + k];
    }
    assert s[i + j..i + j + |sub|] == sub;
    IncludesIff(s, sub);
    assert OccursAt(s, sub, i + j);
  }
}
