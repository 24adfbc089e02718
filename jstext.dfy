/** The JavaScript string primitives the two handlers rely on: `startsWith`,
    `includes`, `split` with a one-character separator, a global `replace`
    of a literal pattern by the empty string, and `trim`. Strings are
    sequences of Dafny characters (Unicode scalar values), not of UTF-16
    code units. */
module JsText {

  /** `s.startsWith(p)` */
  predicate StartsWith(s: string, p: string) {
    |p| <= |s| && s[..|p|] == p
  }

  /** `s.includes(p)`: some suffix of `s` starts with `p`. */
  predicate Occurs(p: string, s: string)
    decreases |s|
  {
    StartsWith(s, p) || (|s| > 0 && Occurs(p, s[1..]))
  }

  /** `startsWith` holds exactly when the text is the prefix followed by
      something. */
  lemma StartsWithIffConcat(s: string, p: string)
    ensures StartsWith(s, p) <==> exists u :: s == p + u
  {
    if StartsWith(s, p) {
      assert s == p + s[|p|..];
    }
    if exists u :: s == p + u {
      var u :| s == p + u;
      assert s[..|p|] == p;
    }
  }

  /** `p` sits in `s` at position `i`. */
  predicate OccursAt(p: string, s: string, i: nat) {
    i + |p| <= |s| && s[i..i + |p|] == p
  }

  /** `includes` holds exactly when the pattern sits at some position of the
      text. */
  lemma {:induction false} OccursIffSomePosition(p: string, s: string)
    ensures Occurs(p, s) <==> exists i :: OccursAt(p, s, i)
    decreases |s|
  {
    if StartsWith(s, p) {
      assert OccursAt(p, s, 0);
    } else {
      if exists i :: OccursAt(p, s, i) {
        var i: nat :| OccursAt(p, s, i);
        assert s[0..|p|] == s[..|p|];
        assert i != 0;
        assert s[1..][i - 1..i - 1 + |p|] == s[i..i + |p|];
        assert OccursAt(p, s[1..], i - 1);
      }
      if |s| > 0 {
        OccursIffSomePosition(p, s[1..]);
        if Occurs(p, s[1..]) {
          var i: nat :| OccursAt(p, s[1..], i);
          assert s[1..][i..i + |p|] == s[i + 1..i + 1 + |p|];
          assert OccursAt(p, s, i + 1);
        }
      }
    }
  }

  /** The position of the first `c` in `s`. */
  function IndexOf(s: string, c: char): (i: nat)
    requires c in s
    ensures i < |s| && s[i] == c && c !in s[..i]
  {
    if s[0] == c then 0 else
      assert s == [s[0]] + s[1..];
      1 + IndexOf(s[1..], c)
  }

  /** `s.split(d)` for a one-character separator `d`: the pieces between
      consecutive separators, an empty piece included. */
  function Split(s: string, d: char): (pieces: seq<string>)
    ensures |pieces| >= 1
    ensures |pieces| == 1 <==> d !in s
    ensures forall k :: 0 <= k < |pieces| ==> d !in pieces[k]
    decreases |s|
  {
    if d !in s then [s]
    else
      var i := IndexOf(s, d);
      [s[..i]] + Split(s[i + 1..], d)
  }

  /** The first piece of a split ends at the first separator. */
  lemma SplitFirst(s: string, d: char)
    ensures Split(s, d)[0] == if d in s then s[..IndexOf(s, d)] else s
  {
  }

  /** After the first piece come the pieces of what follows the first
      separator. */
  lemma SplitRest(s: string, d: char)
    requires d in s
    ensures Split(s, d)[1..] == Split(s[IndexOf(s, d) + 1..], d)
  {
  }

  /** `pieces.join(d)`: the inverse of `Split`. */
  function Join(pieces: seq<string>, d: char): string
    requires |pieces| >= 1
  {
    if |pieces| == 1 then pieces[0] else pieces[0] + [d] + Join(pieces[1..], d)
  }

  lemma {:induction false} JoinSplit(s: string, d: char)
    ensures Join(Split(s, d), d) == s
    decreases |s|
  {
    if d in s {
      var i := IndexOf(s, d);
      var rest := Split(s[i + 1..], d);
      SplitCons(s, d);
      JoinCons(s[..i], rest, d);
      JoinSplit(s[i + 1..], d);
      Reassemble(s, i);
    }
  }

  lemma SplitCons(s: string, d: char)
    requires d in s
    ensures Split(s, d) == [s[..IndexOf(s, d)]] + Split(s[IndexOf(s, d) + 1..], d)
  {
  }

  lemma JoinCons(first: string, rest: seq<string>, d: char)
    requires |rest| >= 1
    ensures Join([first] + rest, d) == first + [d] + Join(rest, d)
  {
    assert ([first] + rest)[1..] == rest;
  }

  lemma Reassemble<T>(s: seq<T>, i: nat)
    requires i < |s|
    ensures s == s[..i] + [s[i]] + s[i + 1..]
  {
  }

  /** `s.replace(/p/g, "")` for a literal pattern `p`: the leftmost
      occurrences of `p`, taken without overlap from left to right, are
      removed. */
  function RemoveAll(s: string, p: string): (r: string)
    requires |p| > 0
    ensures |r| <= |s|
    decreases |s|
  {
    if StartsWith(s, p) then RemoveAll(s[|p|..], p)
    else if s == [] then []
    else [s[0]] + RemoveAll(s[1..], p)
  }

  /** Each occurrence found is removed whole: a text holding the pattern
      loses at least the pattern's length. */
  lemma {:induction false} RemoveAllShrinks(s: string, p: string)
    requires |p| > 0 && Occurs(p, s)
    ensures |RemoveAll(s, p)| <= |s| - |p|
    decreases |s|
  {
    if !StartsWith(s, p) {
      RemoveAllShrinks(s[1..], p);
    }
  }

  /** `RemoveAll` leaves a string in which the pattern does not occur
      unchanged. */
  lemma {:induction false} RemoveAllAbsent(s: string, p: string)
    requires |p| > 0 && !Occurs(p, s)
    ensures RemoveAll(s, p) == s
    decreases |s|
  {
    if s != [] {
      RemoveAllAbsent(s[1..], p);
      assert s == [s[0]] + s[1..];
    }
  }

  /** A character `String.prototype.trim` removes: the ECMAScript
      WhiteSpace and LineTerminator code points. */
  predicate IsJsWhitespace(c: char) {
    || '\U{9}' <= c <= '\U{D}'            // tab, line feed, vertical tab, form feed, carriage return
    || c == '\U{20}' || c == '\U{A0}' || c == '\U{1680}'
    || '\U{2000}' <= c <= '\U{200A}'      // the Unicode space separators en quad to hair space
    || c == '\U{2028}' || c == '\U{2029}'  // line and paragraph separator
    || c == '\U{202F}' || c == '\U{205F}' || c == '\U{3000}'
    || c == '\U{FEFF}'                     // byte order mark
  }

  /** Neither end of `s` is whitespace. */
  predicate IsTrimmed(s: string) {
    |s| == 0 || (!IsJsWhitespace(s[0]) && !IsJsWhitespace(s[|s| - 1]))
  }

  /** Every character of `s` is whitespace. */
  predicate AllWhitespace(s: string) {
    forall k :: 0 <= k < |s| ==> IsJsWhitespace(s[k])
  }

  /** Where the scan of `trim` from the front stops: the first index at or
      after `i` whose character is not whitespace, or `|s|`. */
  function SkipWhitespace(s: string, i: nat): (n: nat)
    requires i <= |s|
    ensures i <= n <= |s|
    ensures forall k :: i <= k < n ==> IsJsWhitespace(s[k])
    ensures n < |s| ==> !IsJsWhitespace(s[n])
    decreases |s| - i
  {
    if i < |s| && IsJsWhitespace(s[i]) then SkipWhitespace(s, i + 1) else i
  }

  /** Where the scan of `trim` from the back stops: the index just after the
      last character in `s[lo..j]` that is not whitespace, or `lo`. */
  function SkipWhitespaceBack(s: string, lo: nat, j: nat): (n: nat)
    requires lo <= j <= |s|
    ensures lo <= n <= j
    ensures forall k :: n <= k < j ==> IsJsWhitespace(s[k])
    ensures n > lo ==> !IsJsWhitespace(s[n - 1])
    decreases j
  {
    if j > lo && IsJsWhitespace(s[j - 1]) then SkipWhitespaceBack(s, lo, j - 1) else j
  }

  /** `s.trim()`: no whitespace is left at either end. */
  function Trim(s: string): (r: string)
    ensures IsTrimmed(r) && |r| <= |s|
  {
    var i := SkipWhitespace(s, 0);
    s[i..SkipWhitespaceBack(s, i, |s|)]
  }

  /** What `trim` returns is the middle part of its input, and everything it
      cuts off is whitespace. */
  lemma TrimCutsWhitespace(s: string)
    ensures exists i, j :: 0 <= i <= j <= |s| && Trim(s) == s[i..j]
              && AllWhitespace(s[..i]) && AllWhitespace(s[j..])
  {
    var i := SkipWhitespace(s, 0);
    var j := SkipWhitespaceBack(s, i, |s|);
    assert Trim(s) == s[i..j];
    assert AllWhitespace(s[..i]) && AllWhitespace(s[j..]);
  }

  /** `trim` changes exactly the strings that have whitespace at an end. */
  lemma TrimFixedPoints(s: string)
    ensures Trim(s) == s <==> IsTrimmed(s)
  {
    if IsTrimmed(s) && |s| > 0 {
      assert SkipWhitespace(s, 0) == 0;
      assert SkipWhitespaceBack(s, 0, |s|) == |s|;
    }
  }

  /** What `trim` returns is a part of its input, so whatever does not occur
      in the input does not occur in the result. */
  lemma TrimKeepsAbsence(p: string, s: string)
    requires !Occurs(p, s)
    ensures !Occurs(p, Trim(s))
  {
    var i := SkipWhitespace(s, 0);
    var j := SkipWhitespaceBack(s, i, |s|);
    OccursInSuffix(p, s, i);
    OccursInPrefix(p, s[i..], j - i);
    assert s[i..][..j - i] == Trim(s);
  }

  lemma {:induction false} OccursInSuffix(p: string, s: string, k: nat)
    requires k <= |s|
    ensures Occurs(p, s[k..]) ==> Occurs(p, s)
    decreases k
  {
    if k > 0 {
      OccursInSuffix(p, s[1..], k - 1);
      assert s[1..][k - 1..] == s[k..];
    }
  }

  lemma {:induction false} OccursInPrefix(p: string, s: string, k: nat)
    requires k <= |s|
    ensures Occurs(p, s[..k]) ==> Occurs(p, s)
    decreases |s|
  {
    if Occurs(p, s[..k]) && !StartsWith(s[..k], p) {
      assert |s[..k]| > 0;
      OccursInPrefix(p, s[1..], k - 1);
      assert s[..k][1..] == s[1..][..k - 1];
    }
  }
}
