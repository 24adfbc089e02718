/** The two ways the handlers strip markdown code fences from the model's
    reply before `JSON.parse`:
    - api/extract.js:75 removes every "```json", then every "```", then trims;
    - biometria.js:56 removes, in one left-to-right scan, every "```json" or
      (where that does not match) "```", then trims.
    Both leave a trimmed text without "```", but they are different
    functions: they differ on "````json". */
module Fences {
  import opened JsText

  const Fence := "```"
  const FenceJson := "```json"

  /** `text.replace(/```json/g, "").replace(/```/g, "").trim()` */
  function StripFences2Pass(text: string): (r: string)
    ensures !Occurs(Fence, r) && IsTrimmed(r)
  {
    var once := RemoveAll(text, FenceJson);
    var twice := RemoveAll(once, Fence);
    NoFenceAfterRemoveAll(once);
    TrimKeepsAbsence(Fence, twice);
    Trim(twice)
  }

  /** `text.replace(/```json|```/g, "")`: at each position the first
      alternative is tried before the second. */
  function RemoveAlt(s: string): (r: string)
    ensures |r| <= |s|
    decreases |s|
  {
    if StartsWith(s, FenceJson) then RemoveAlt(s[|FenceJson|..])
    else if StartsWith(s, Fence) then RemoveAlt(s[|Fence|..])
    else if s == [] then []
    else [s[0]] + RemoveAlt(s[1..])
  }

  /** Each match found is removed whole: a text holding "```" loses at
      least three characters. */
  lemma {:induction false} RemoveAltShrinks(s: string)
    requires Occurs(Fence, s)
    ensures |RemoveAlt(s)| <= |s| - |Fence|
    decreases |s|
  {
    if !StartsWith(s, FenceJson) && !StartsWith(s, Fence) {
      RemoveAltShrinks(s[1..]);
    }
  }

  /** `text.replace(/```json|```/g, "").trim()` */
  function StripFencesAlt(text: string): (r: string)
    ensures !Occurs(Fence, r) && IsTrimmed(r)
  {
    var removed := RemoveAlt(text);
    NoFenceAfterRemoveAlt(text);
    TrimKeepsAbsence(Fence, removed);
    Trim(removed)
  }

  // ---------------------------------------------------------------------
  // Why no "```" survives: a backtick that a scan keeps is never the start
  // of "```", so the character kept right after it is its own successor in
  // the input, and three kept backticks in a row would have been removed.

  /** `s` begins with two backticks. */
  predicate TwoTicks(s: string) {
    |s| >= 2 && s[0] == '`' && s[1] == '`'
  }

  lemma FenceChars(s: string)
    ensures StartsWith(s, Fence) <==> |s| >= 3 && s[0] == '`' && TwoTicks(s[1..])
  {
    if |s| >= 3 {
      assert s[..3] == [s[0], s[1], s[2]];
    }
  }

  lemma StartsWithPrefix(s: string, long: string, short: string)
    requires |short| <= |long| && long[..|short|] == short
    requires StartsWith(s, long)
    ensures StartsWith(s, short)
  {
    assert s[..|short|] == s[..|long|][..|short|];
  }

  lemma {:induction false} NoFenceAfterRemoveAll(t: string)
    ensures !Occurs(Fence, RemoveAll(t, Fence))
    decreases |t|
  {
    if StartsWith(t, Fence) {
      NoFenceAfterRemoveAll(t[|Fence|..]);
    } else if t != [] {
      var w := RemoveAll(t[1..], Fence);
      NoFenceAfterRemoveAll(t[1..]);
      assert ([t[0]] + w)[1..] == w;
      if t[0] == '`' {
        NoDoubleTickAfterRemoveAll(t[1..]);
        assert !TwoTicks(w);
        FenceChars([t[0]] + w);
      } else {
        FenceChars([t[0]] + w);
      }
    }
  }

  lemma NoDoubleTickAfterRemoveAll(u: string)
    requires !StartsWith("`" + u, Fence)
    ensures !TwoTicks(RemoveAll(u, Fence))
  {
    if u != [] {
      if u[0] != '`' {
        assert !StartsWith(u, Fence);
        assert RemoveAll(u, Fence) == [u[0]] + RemoveAll(u[1..], Fence);
      } else {
        assert |u| == 1 || u[1] != '`';
        assert !StartsWith(u, Fence);
        var v := u[1..];
        assert RemoveAll(u, Fence) == [u[0]] + RemoveAll(v, Fence);
        if v != [] {
          assert !StartsWith(v, Fence);
        }
      }
    }
  }

  lemma {:induction false} NoFenceAfterRemoveAlt(t: string)
    ensures !Occurs(Fence, RemoveAlt(t))
    decreases |t|
  {
    if StartsWith(t, FenceJson) {
      NoFenceAfterRemoveAlt(t[|FenceJson|..]);
    } else if StartsWith(t, Fence) {
      NoFenceAfterRemoveAlt(t[|Fence|..]);
    } else if t != [] {
      var w := RemoveAlt(t[1..]);
      NoFenceAfterRemoveAlt(t[1..]);
      assert ([t[0]] + w)[1..] == w;
      if t[0] == '`' {
        NoDoubleTickAfterRemoveAlt(t[1..]);
        assert !TwoTicks(w);
        FenceChars([t[0]] + w);
      } else {
        FenceChars([t[0]] + w);
      }
    }
  }

  lemma NoDoubleTickAfterRemoveAlt(u: string)
    requires !StartsWith("`" + u, Fence)
    ensures !TwoTicks(RemoveAlt(u))
  {
    if u != [] {
      if u[0] != '`' {
        RemoveAltKeepsFirst(u);
      } else {
        assert ("`" + u)[1..] == u;
        FenceChars("`" + u);
        RemoveAltKeepsFirst(u);
        if |u| > 1 {
          RemoveAltKeepsFirst(u[1..]);
        }
      }
    }
  }

  /** A first character that does not start "```" is kept by the scan. */
  lemma RemoveAltKeepsFirst(u: string)
    requires u != [] && (u[0] != '`' || !TwoTicks(u))
    ensures RemoveAlt(u) == [u[0]] + RemoveAlt(u[1..])
  {
    FenceChars(u);
    if StartsWith(u, FenceJson) {
      StartsWithPrefix(u, FenceJson, Fence);
    }
  }

  // ---------------------------------------------------------------------
  // Fixed points and idempotence.

  lemma {:induction false} FenceJsonNeedsFence(s: string)
    ensures Occurs(FenceJson, s) ==> Occurs(Fence, s)
    decreases |s|
  {
    if StartsWith(s, FenceJson) {
      StartsWithPrefix(s, FenceJson, Fence);
    } else if |s| > 0 {
      FenceJsonNeedsFence(s[1..]);
    }
  }

  lemma {:induction false} TickFreeHasNoFence(s: string)
    requires '`' !in s
    ensures !Occurs(Fence, s)
    decreases |s|
  {
    if |s| > 0 {
      FenceChars(s);
      assert s[0] != '`';
      TickFreeHasNoFence(s[1..]);
    }
  }

  lemma {:induction false} RemoveAltAbsent(s: string)
    requires !Occurs(Fence, s)
    ensures RemoveAlt(s) == s
    decreases |s|
  {
    if s != [] {
      if StartsWith(s, FenceJson) {
        StartsWithPrefix(s, FenceJson, Fence);
      }
      RemoveAltAbsent(s[1..]);
      assert s == [s[0]] + s[1..];
    }
  }

  /** The texts the two-pass stripper leaves alone are exactly the trimmed
      texts without "```". */
  lemma StripFences2PassFixedPoints(s: string)
    ensures StripFences2Pass(s) == s <==> !Occurs(Fence, s) && IsTrimmed(s)
  {
    if !Occurs(Fence, s) && IsTrimmed(s) {
      FenceJsonNeedsFence(s);
      RemoveAllAbsent(s, FenceJson);
      RemoveAllAbsent(s, Fence);
      TrimFixedPoints(s);
    }
  }

  lemma StripFences2PassIdempotent(s: string)
    ensures StripFences2Pass(StripFences2Pass(s)) == StripFences2Pass(s)
  {
    StripFences2PassFixedPoints(StripFences2Pass(s));
  }

  /** The texts the one-scan stripper leaves alone are exactly the trimmed
      texts without "```". */
  lemma StripFencesAltFixedPoints(s: string)
    ensures StripFencesAlt(s) == s <==> !Occurs(Fence, s) && IsTrimmed(s)
  {
    if !Occurs(Fence, s) && IsTrimmed(s) {
      RemoveAltAbsent(s);
      TrimFixedPoints(s);
    }
  }

  lemma StripFencesAltIdempotent(s: string)
    ensures StripFencesAlt(StripFencesAlt(s)) == StripFencesAlt(s)
  {
    StripFencesAltFixedPoints(StripFencesAlt(s));
  }

  /** A reply without backticks and without surrounding whitespace passes
      through either stripper unchanged. */
  lemma PlainReplyUnchanged(s: string)
    requires '`' !in s && IsTrimmed(s)
    ensures StripFences2Pass(s) == s && StripFencesAlt(s) == s
  {
    TickFreeHasNoFence(s);
    StripFences2PassFixedPoints(s);
    StripFencesAltFixedPoints(s);
  }

  // ---------------------------------------------------------------------
  // A fenced reply: both strippers recover the trimmed body.

  lemma {:induction false} RemoveAllAfterTickFree(x: string, y: string, p: string)
    requires |p| > 0 && p[0] == '`' && '`' !in x
    ensures RemoveAll(x + y, p) == x + RemoveAll(y, p)
    decreases |x|
  {
    if x == [] {
      assert x + y == y;
    } else {
      Uncons(x, y);
      assert x[0] != '`';
      RemoveAllCons(x[0], x[1..] + y, p);
      RemoveAllAfterTickFree(x[1..], y, p);
      Uncons(x, RemoveAll(y, p));
    }
  }

  lemma {:induction false} RemoveAltAfterTickFree(x: string, y: string)
    requires '`' !in x
    ensures RemoveAlt(x + y) == x + RemoveAlt(y)
    decreases |x|
  {
    if x == [] {
      assert x + y == y;
    } else {
      Uncons(x, y);
      assert x[0] != '`';
      RemoveAltKeepsFirst(x + y);
      RemoveAltAfterTickFree(x[1..], y);
      Uncons(x, RemoveAlt(y));
    }
  }

  /** Taking the first element off a concatenation. */
  lemma Uncons<T>(x: seq<T>, y: seq<T>)
    requires |x| > 0
    ensures (x + y)[0] == x[0] && (x + y)[1..] == x[1..] + y
    ensures x + y == [x[0]] + (x[1..] + y)
  {
  }

  /** A reply of the form "```json" + body + "```", the body free of
      backticks, is reduced by both strippers to the trimmed body. */
  lemma FencedReplyUnwrapped(body: string)
    requires '`' !in body
    ensures StripFences2Pass(FenceJson + body + Fence) == Trim(body)
    ensures StripFencesAlt(FenceJson + body + Fence) == Trim(body)
  {
    var reply := FenceJson + body + Fence;
    assert reply[|FenceJson|..] == body + Fence;
    assert StartsWith(reply, FenceJson);
    RemoveAllAfterTickFree(body, Fence, FenceJson);
    assert RemoveAll(Fence, FenceJson) == Fence;
    RemoveAllAfterTickFree(body, Fence, Fence);
    assert RemoveAll(Fence, Fence) == [];
    assert body + [] == body;
    RemoveAltAfterTickFree(body, Fence);
    assert RemoveAlt(Fence) == [];
  }

  /** The two strippers are different functions: on "````json" the
      two-pass one removes "```json" at offset 1 and leaves "`", while the
      one-scan one removes "```" at offset 0 and leaves "`json". */
  lemma StrippersDiffer()
    ensures StripFences2Pass("````json") == "`"
    ensures StripFencesAlt("````json") == "`json"
  {
    TwoPassOnFourTicks();
    AltOnFourTicks();
  }

  lemma TwoPassOnFourTicks()
    ensures StripFences2Pass("````json") == "`"
  {
    assert "````json" == "`" + FenceJson + [];
    TwoPassAfterLoneTick([]);
    TrimFixedPoints("`");
  }

  /** The two-pass stripper on a backtick, "```json" and backtick-free
      text: the first pass removes the "```json" that starts after the lone
      backtick, and the second pass finds nothing left to remove. */
  lemma TwoPassAfterLoneTick(u: string)
    requires '`' !in u
    ensures StripFences2Pass("`" + FenceJson + u) == Trim("`" + u)
  {
    FirstPassAfterLoneTick(u);
    SecondPassAfterLoneTick(u);
  }

  /** The first pass keeps the lone backtick and removes the "```json"
      after it. */
  lemma FirstPassAfterLoneTick(u: string)
    requires '`' !in u
    ensures RemoveAll("`" + FenceJson + u, FenceJson) == "`" + u
  {
    var s := "`" + FenceJson + u;
    assert s == ['`'] + (FenceJson + u);
    assert FenceJson[3] == 'j' && s[3] == '`';
    assert s[..|FenceJson|][3] == s[3];
    RemoveAllCons('`', FenceJson + u, FenceJson);
    RemoveAllLead(FenceJson, u);
    FenceJsonNeedsFence(u);
    TickFreeHasNoFence(u);
    RemoveAllAbsent(u, FenceJson);
  }

  /** A first character that does not start the pattern is kept. */
  lemma RemoveAllCons(c: char, t: string, p: string)
    requires |p| > 0 && !StartsWith([c] + t, p)
    ensures RemoveAll([c] + t, p) == [c] + RemoveAll(t, p)
  {
    assert ([c] + t)[1..] == t;
  }

  /** A leading occurrence of the pattern is removed. */
  lemma RemoveAllLead(p: string, u: string)
    requires |p| > 0
    ensures RemoveAll(p + u, p) == RemoveAll(u, p)
  {
    assert (p + u)[..|p|] == p;
    assert (p + u)[|p|..] == u;
  }

  /** A lone backtick before backtick-free text holds no fence. */
  lemma SecondPassAfterLoneTick(u: string)
    requires '`' !in u
    ensures RemoveAll("`" + u, Fence) == "`" + u
  {
    var t := "`" + u;
    TickFreeHasNoFence(u);
    RemoveAllAbsent(u, Fence);
    assert |u| > 0 ==> t[1] != '`';
    FenceChars(t);
    assert t[1..] == u;
  }

  lemma AltOnFourTicks()
    ensures StripFencesAlt("````json") == "`json"
  {
    var s := "````json";
    assert s[3] != FenceJson[3];
    assert !StartsWith(s, FenceJson);
    assert StartsWith(s, Fence);
    assert s[|Fence|..] == "`json";
    AltKeepsTickJson();
  }

  lemma AltKeepsTickJson()
    ensures StripFencesAlt("`json") == "`json"
  {
    assert "`json" == "`" + "json";
    assert '`' !in "json";
    AltKeepsLoneTick("json");
  }

  /** A single backtick followed by backtick-free text survives the one-scan
      stripper. */
  lemma AltKeepsLoneTick(u: string)
    requires '`' !in u && IsTrimmed("`" + u)
    ensures StripFencesAlt("`" + u) == "`" + u
  {
    var t := "`" + u;
    TickFreeHasNoFence(u);
    RemoveAltAbsent(u);
    assert t[1..] == u;
    assert |u| > 0 ==> t[1] != '`';
    FenceChars(t);
    assert !StartsWith(t, FenceJson) by {
      if StartsWith(t, FenceJson) {
        StartsWithPrefix(t, FenceJson, Fence);
      }
    }
    assert RemoveAlt(t) == t;
    TrimFixedPoints(t);
  }
}
