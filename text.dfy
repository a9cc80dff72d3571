/** ASCII stand-ins for the three JavaScript string primitives the relay uses:
    `toLowerCase`, `includes` and `Array.prototype.join`. */
module Text {

  predicate IsUpper(c: char) { 'A' <= c <= 'Z' }

  /** True when `s` has no upper-case ASCII letter. */
  predicate IsLower(s: string) { forall i :: 0 <= i < |s| ==> !IsUpper(s[i]) }

  function LowerChar(c: char): char {
    if IsUpper(c) then (c as int + 32) as char else c
  }

  /** `s.toLowerCase()`, restricted to the ASCII letters A-Z. */
  function LowerAscii(s: string): (r: string)
    ensures |r| == |s|
    ensures forall i :: 0 <= i < |s| ==> r[i] == LowerChar(s[i])
    ensures IsLower(r)
  {
    if s == [] then [] else [LowerChar(s[0])] + LowerAscii(s[1..])
  }

  /** Lower-casing twice is lower-casing once. */
  lemma LowerAsciiIdempotent(s: string)
    ensures LowerAscii(LowerAscii(s)) == LowerAscii(s)
  {
    var r := LowerAscii(s);
    assert forall i :: 0 <= i < |r| ==> LowerAscii(r)[i] == r[i];
  }

  /** A string that is already lower case is left as it is. */
  lemma LowerAsciiFixesLower(w: string)
    requires IsLower(w)
    ensures LowerAscii(w) == w
  {
    assert forall i :: 0 <= i < |w| ==> LowerAscii(w)[i] == w[i];
  }

  /** `w` occurs in `s` starting at index `i`. */
  ghost predicate OccursAt(s: string, w: string, i: int) {
    0 <= i && i + |w| <= |s| && s[i..i + |w|] == w
  }

  lemma OccursAtTail(s: string, w: string)
    requires s != []
    ensures forall i :: 0 <= i ==> (OccursAt(s[1..], w, i) <==> OccursAt(s, w, i + 1))
  {
    forall i | 0 <= i ensures OccursAt(s[1..], w, i) <==> OccursAt(s, w, i + 1) {
      if 0 <= i && i + |w| <= |s| - 1 {
        assert s[1..][i..i + |w|] == s[i + 1..i + 1 + |w|];
      }
    }
  }

  /** `s.includes(w)`. */
  predicate Contains(s: string, w: string)
    ensures |w| == 0 ==> Contains(s, w)
    ensures Contains(s, w) ==> |w| <= |s|
  {
    if |w| > |s| then false
    else if s[..|w|] == w then true
    else Contains(s[1..], w)
  }

  /** `includes` holds exactly when some window of `s` equals `w`
      (the empty word occurs everywhere). */
  lemma {:induction false} ContainsIff(s: string, w: string)
    ensures Contains(s, w) <==> exists i :: OccursAt(s, w, i)
  {
    if |w| > |s| {
    } else if s[..|w|] == w {
      assert OccursAt(s, w, 0);
    } else {
      ContainsIff(s[1..], w);
      OccursAtTail(s, w);
      assert !OccursAt(s, w, 0);
      assert forall i :: OccursAt(s, w, i) ==> i == 0 || OccursAt(s[1..], w, i - 1);
    }
  }

  /** Lower-casing a message lower-cases every word it contains, so a word found
      in the raw message in any letter case is found, lower-cased, after lower-casing. */
  lemma ContainsLowered(s: string, v: string)
    requires Contains(s, v)
    ensures Contains(LowerAscii(s), LowerAscii(v))
  {
    ContainsIff(s, v);
    var i :| OccursAt(s, v, i);
    var l, w := LowerAscii(s), LowerAscii(v);
    assert l[i..i + |w|] == w by {
      forall k | 0 <= k < |w| ensures l[i..i + |w|][k] == w[k] {
        assert s[i..i + |v|][k] == v[k];
      }
    }
    assert OccursAt(l, w, i);
    ContainsIff(l, w);
  }

  /** A word placed anywhere inside a text is found there. */
  lemma ContainsInfix(pre: string, w: string, post: string)
    ensures Contains(pre + w + post, w)
  {
    var s := pre + w + post;
    assert s[|pre|..|pre| + |w|] == w;
    assert OccursAt(s, w, |pre|);
    ContainsIff(s, w);
  }

  /** `parts.join(sep)`: the first part leads the result and the last part ends it. */
  function Join(parts: seq<string>, sep: string): (r: string)
    ensures parts == [] ==> r == ""
    ensures parts != [] ==> |parts[0]| <= |r| && r[..|parts[0]|] == parts[0]
    ensures parts != [] ==> var last := parts[|parts| - 1];
              |last| <= |r| && r[|r| - |last|..] == last
  {
    if |parts| == 0 then ""
    else if |parts| == 1 then parts[0]
    else parts[0] + sep + Join(parts[1..], sep)
  }

  /** Joining one more part adds the separator and that part at the end. */
  lemma {:induction false} JoinSnoc(parts: seq<string>, x: string, sep: string)
    requires parts != []
    ensures Join(parts + [x], sep) == Join(parts, sep) + sep + x
  {
    if |parts| > 1 {
      assert (parts + [x])[1..] == parts[1..] + [x];
      JoinSnoc(parts[1..], x, sep);
    }
  }
}
