/** The functions of Go's `strings` package that the plugin uses (Split, TrimSpace,
    ToLower, Contains), on strings of Unicode code points, together with Join, which
    the plugin does not call: it is defined here as the inverse of Split, for the
    round-trip lemmas. */
module GoStrings {

  // ---------------------------------------------------------------------
  // White space and TrimSpace
  // ---------------------------------------------------------------------

  /** Go's `unicode.IsSpace`: the code points with the Unicode White_Space property. */
  predicate IsSpace(c: char) {
    var n := c as int;
    (0x09 <= n <= 0x0D) || n == 0x20 || n == 0x85 || n == 0xA0 || n == 0x1680
    || (0x2000 <= n <= 0x200A) || n == 0x2028 || n == 0x2029 || n == 0x202F
    || n == 0x205F || n == 0x3000
  }

  /** Every character of `s` is white space. */
  predicate AllSpace(s: string) {
    forall k :: 0 <= k < |s| ==> IsSpace(s[k])
  }

  /** `s` neither starts nor ends with white space. */
  predicate IsTrimmed(s: string) {
    s == [] || (!IsSpace(s[0]) && !IsSpace(s[|s| - 1]))
  }

  /** `s` without its leading white space. */
  function TrimLeftSpace(s: string): (r: string)
    ensures r == [] || !IsSpace(r[0])
    decreases |s|
  {
    if s != [] && IsSpace(s[0]) then TrimLeftSpace(s[1..]) else s
  }

  /** `s` without its trailing white space. */
  function TrimRightSpace(s: string): (r: string)
    ensures r == [] || !IsSpace(r[|r| - 1])
    decreases |s|
  {
    if s != [] && IsSpace(s[|s| - 1]) then TrimRightSpace(s[..|s| - 1]) else s
  }

  /** TrimLeftSpace removes an all-space prefix and keeps the rest. */
  lemma {:induction false} TrimLeftSpaceDrops(s: string)
    ensures |TrimLeftSpace(s)| <= |s|
    ensures TrimLeftSpace(s) == s[|s| - |TrimLeftSpace(s)|..]
    ensures AllSpace(s[..|s| - |TrimLeftSpace(s)|])
    decreases |s|
  {
    if s != [] && IsSpace(s[0]) {
      TrimLeftSpaceDrops(s[1..]);
      var k := |s| - |TrimLeftSpace(s)|;
      assert s[..k] == [s[0]] + s[1..][..k - 1];
    }
  }

  /** TrimRightSpace removes an all-space suffix and keeps the rest. */
  lemma {:induction false} TrimRightSpaceDrops(s: string)
    ensures |TrimRightSpace(s)| <= |s|
    ensures TrimRightSpace(s) == s[..|TrimRightSpace(s)|]
    ensures AllSpace(s[|TrimRightSpace(s)|..])
    decreases |s|
  {
    if s != [] && IsSpace(s[|s| - 1]) {
      var init := s[..|s| - 1];
      TrimRightSpaceDrops(init);
      var k := |TrimRightSpace(s)|;
      assert s[k..] == init[k..] + [s[|s| - 1]];
    }
  }

  /** Go's `strings.TrimSpace`: `s` without its leading and trailing white space. */
  function TrimSpace(s: string): (r: string)
    ensures IsTrimmed(r)
  {
    var left := TrimLeftSpace(s);
    TrimRightSpaceDrops(left);
    TrimRightSpace(left)
  }

  /** What TrimSpace removes is white space at the two ends and nothing else: the
      result is the slice of `s` between an all-space prefix and an all-space suffix. */
  lemma TrimSpaceIsSlice(s: string)
    ensures exists i :: 0 <= i <= |s| - |TrimSpace(s)| && TrimSpace(s) == s[i..i + |TrimSpace(s)|]
                        && AllSpace(s[..i]) && AllSpace(s[i + |TrimSpace(s)|..])
  {
    var left := TrimLeftSpace(s);
    TrimLeftSpaceDrops(s);
    TrimRightSpaceDrops(left);
    var r := TrimRightSpace(left);
    var i := |s| - |left|;
    assert r == s[i..i + |r|] && AllSpace(s[..i]);
    assert s[i + |r|..] == left[|r|..];
  }

  /** Every character TrimSpace keeps comes from its input. */
  lemma TrimSpaceKeepsOnlyInput(s: string)
    ensures forall c :: c in TrimSpace(s) ==> c in s
  {
    TrimSpaceIsSlice(s);
    var t := TrimSpace(s);
    var i :| 0 <= i <= |s| - |t| && t == s[i..i + |t|];
    forall c | c in t ensures c in s {
      var k :| 0 <= k < |t| && t[k] == c;
      assert s[i + k] == c;
    }
  }

  /** Trimming a string that has no edge white space gives it back unchanged. */
  lemma TrimSpaceOfTrimmed(s: string)
    requires IsTrimmed(s)
    ensures TrimSpace(s) == s
  {
    assert TrimLeftSpace(s) == s;
    assert TrimRightSpace(s) == s;
  }

  // ---------------------------------------------------------------------
  // ToLower
  // ---------------------------------------------------------------------

  /** An upper-case ASCII letter. */
  predicate IsUpper(c: char) {
    'A' <= c <= 'Z'
  }

  /** No character of `s` is an upper-case ASCII letter. */
  predicate IsLower(s: string) {
    forall k :: 0 <= k < |s| ==> !IsUpper(s[k])
  }

  /** Go's `unicode.ToLower`, restricted to ASCII: 'A'..'Z' map to 'a'..'z'. */
  function ToLowerChar(c: char): (r: char)
    ensures !IsUpper(r)
    ensures IsSpace(r) <==> IsSpace(c)
    ensures r == ',' <==> c == ','
    ensures !IsUpper(c) ==> r == c
  {
    if IsUpper(c) then (c as int - 'A' as int + 'a' as int) as char else c
  }

  /** Go's `strings.ToLower` (ASCII letters only): `s` with every character lowered. */
  function ToLower(s: string): (r: string)
    ensures |r| == |s|
    ensures forall k :: 0 <= k < |s| ==> r[k] == ToLowerChar(s[k])
    ensures IsLower(r)
  {
    if s == [] then [] else [ToLowerChar(s[0])] + ToLower(s[1..])
  }

  /** Lowering keeps a trimmed string trimmed: lowering never creates or removes white space. */
  lemma ToLowerKeepsTrimmed(s: string)
    requires IsTrimmed(s)
    ensures IsTrimmed(ToLower(s))
  {
    if s != [] {
      assert ToLower(s)[0] == ToLowerChar(s[0]);
      assert ToLower(s)[|s| - 1] == ToLowerChar(s[|s| - 1]);
    }
  }

  /** Lowering a string that holds no upper-case letter gives it back unchanged. */
  lemma ToLowerOfLower(s: string)
    requires IsLower(s)
    ensures ToLower(s) == s
  {
    assert forall k :: 0 <= k < |s| ==> ToLower(s)[k] == s[k];
  }

  // ---------------------------------------------------------------------
  // Split and Join
  // ---------------------------------------------------------------------

  /** Go's `strings.Split(s, sep)` for a one-character separator: the pieces of `s`
      between occurrences of `sep`. There is always at least one piece; the empty
      string gives one empty piece. */
  function Split(s: string, sep: char): (r: seq<string>)
    ensures |r| >= 1
    ensures forall p :: p in r ==> sep !in p
    decreases |s|
  {
    if s == [] then [""]
    else
      var rest := Split(s[1..], sep);
      if s[0] == sep then [""] + rest
      else [[s[0]] + rest[0]] + rest[1..]
  }

  /** Go's `strings.Join(ps, sep)`: the pieces with `sep` between neighbours. */
  function Join(ps: seq<string>, sep: char): string
    decreases |ps|
  {
    if |ps| == 0 then ""
    else if |ps| == 1 then ps[0]
    else ps[0] + [sep] + Join(ps[1..], sep)
  }

  /** Joining the pieces of a split restores the original string. */
  lemma {:induction false} JoinSplit(s: string, sep: char)
    ensures Join(Split(s, sep), sep) == s
    decreases |s|
  {
    if s != [] {
      var rest := Split(s[1..], sep);
      JoinSplit(s[1..], sep);
      if s[0] != sep && |rest| > 1 {
        calc {
          Join(Split(s, sep), sep);
          ([s[0]] + rest[0]) + [sep] + Join(rest[1..], sep);
          [s[0]] + (rest[0] + [sep] + Join(rest[1..], sep));
          [s[0]] + s[1..];
        }
      }
    }
  }

  /** Splitting a join of separator-free pieces gives the pieces back. */
  lemma {:induction false} SplitJoin(ps: seq<string>, sep: char)
    requires |ps| >= 1
    requires forall p :: p in ps ==> sep !in p
    ensures Split(Join(ps, sep), sep) == ps
    decreases |ps|, |ps[0]|
  {
    var p := ps[0];
    if p == [] {
      if |ps| > 1 {
        assert Join(ps, sep) == [sep] + Join(ps[1..], sep);
        SplitJoin(ps[1..], sep);
        assert Join(ps, sep)[1..] == Join(ps[1..], sep);
      }
    } else {
      var qs := [p[1..]] + ps[1..];
      assert sep !in p[1..] by {
        forall k | 0 <= k < |p[1..]| ensures p[1..][k] != sep {
          assert p[1..][k] == p[k + 1] && p[k + 1] in p;
        }
      }
      assert forall q :: q in qs ==> sep !in q by {
        forall q | q in qs ensures sep !in q {
          if q != p[1..] { assert q in ps[1..]; }
        }
      }
      SplitJoin(qs, sep);
      var joined := Join(ps, sep);
      assert joined == [p[0]] + Join(qs, sep);
      assert joined != [] && joined[0] == p[0] && p[0] != sep by { assert p[0] in p; }
      assert joined[1..] == Join(qs, sep);
      assert Split(joined, sep) == [[p[0]] + qs[0]] + qs[1..];
      assert [p[0]] + p[1..] == p;
    }
  }

  // ---------------------------------------------------------------------
  // Contains
  // ---------------------------------------------------------------------

  /** `sub` occurs in `s` at position `i`. */
  predicate OccursAt(s: string, sub: string, i: int) {
    0 <= i && i + |sub| <= |s| && s[i..i + |sub|] == sub
  }

  /** Go's `strings.Contains`: whether `sub` occurs anywhere in `s`. */
  function Contains(s: string, sub: string): (r: bool)
    ensures r <==> exists i :: OccursAt(s, sub, i)
    decreases |s|
  {
    if |sub| <= |s| && s[..|sub|] == sub then
      assert OccursAt(s, sub, 0);
      true
    else if s == [] then
      false
    else
      var r := Contains(s[1..], sub);
      assert forall i :: OccursAt(s[1..], sub, i) ==> OccursAt(s, sub, i + 1) by {
        forall i | OccursAt(s[1..], sub, i) ensures OccursAt(s, sub, i + 1) {
          assert s[1..][i..i + |sub|] == s[i + 1..i + 1 + |sub|];
        }
      }
      assert forall i :: OccursAt(s, sub, i) && i > 0 ==> OccursAt(s[1..], sub, i - 1) by {
        forall i | OccursAt(s, sub, i) && i > 0 ensures OccursAt(s[1..], sub, i - 1) {
          assert s[1..][i - 1..i - 1 + |sub|] == s[i..i + |sub|];
        }
      }
      r
  }

  /** A string contains anything it has as an infix; so a role list containing
      "channel_admin" anywhere, as a whole role or inside a longer one, passes the
      admin test. */
  lemma ContainsInfix(a: string, sub: string, b: string)
    ensures Contains(a + sub + b, sub)
  {
    assert (a + sub + b)[|a|..|a| + |sub|] == sub;
    assert OccursAt(a + sub + b, sub, |a|);
  }
}
