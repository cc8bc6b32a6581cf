/** The JavaScript string operations the handlers use, on `string` = `seq<char>`:
    `startsWith`, the first occurrence of a separator, `s.split(sep)[1]` and
    `s.split(c).pop()`. */
module Text {
  import opened Prelude

  predicate StartsWith(s: string, prefix: string) {
    |prefix| <= |s| && s[..|prefix|] == prefix
  }

  /** `pat` stands in `s` at position `k`. */
  predicate OccursAt(s: string, pat: string, k: int) {
    0 <= k && k + |pat| <= |s| && s[k..k + |pat|] == pat
  }

  /** `pat` stands nowhere in `s`. */
  ghost predicate Free(s: string, pat: string) {
    forall k :: !OccursAt(s, pat, k)
  }

  /** The first position at or after `from` where `pat` stands in `s` (`indexOf`). Its
      meaning is stated by `IndexFromFinds`, so that the handlers that call it do not
      carry the quantified facts with them. */
  function IndexFrom(s: string, pat: string, from: nat): (r: Option<nat>)
    requires |pat| > 0
    decreases |s| - from
    ensures r.Some? ==> from <= r.value && r.value + |pat| <= |s|
  {
    if from + |pat| > |s| then None
    else if OccursAt(s, pat, from) then Some(from)
    else IndexFrom(s, pat, from + 1)
  }

  /** The search finds the first occurrence at or after `from`, and none exactly when
      there is none. */
  lemma {:induction false} IndexFromFinds(s: string, pat: string, from: nat)
    requires |pat| > 0
    decreases |s| - from
    ensures var r := IndexFrom(s, pat, from);
      && (r.Some? ==> from <= r.value && OccursAt(s, pat, r.value))
      && (r.Some? ==> forall j :: from <= j < r.value ==> !OccursAt(s, pat, j))
      && (r.None? ==> forall j :: from <= j ==> !OccursAt(s, pat, j))
  {
    if from + |pat| <= |s| && !OccursAt(s, pat, from) {
      IndexFromFinds(s, pat, from + 1);
    }
  }

  function IndexOf(s: string, pat: string): (r: Option<nat>)
    requires |pat| > 0
    ensures r.Some? ==> r.value + |pat| <= |s|
  {
    IndexFrom(s, pat, 0)
  }

  /** `indexOf` is absent exactly when the pattern occurs nowhere, and otherwise the
      first occurrence. */
  lemma IndexOfFinds(s: string, pat: string)
    requires |pat| > 0
    ensures IndexOf(s, pat).None? <==> Free(s, pat)
    ensures IndexOf(s, pat).Some? ==>
      OccursAt(s, pat, IndexOf(s, pat).value) && forall j :: 0 <= j < IndexOf(s, pat).value ==> !OccursAt(s, pat, j)
  {
    IndexFromFinds(s, pat, 0);
  }

  /** `s.split(sep)[1]`: the text between the first and the second occurrence of `sep`
      (or the end of `s`); absent (`undefined`) when `sep` does not occur in `s`. */
  function SecondField(s: string, sep: string): Option<string>
    requires |sep| > 0
  {
    match IndexOf(s, sep)
    case None => None
    case Some(i) =>
      var rest := s[i + |sep|..];
      match IndexOf(rest, sep)
      case None => Some(rest)
      case Some(j) => Some(rest[..j])
  }

  /** The second field is absent exactly when `sep` does not occur, and it never holds
      `sep` itself. */
  lemma SecondFieldSpec(s: string, sep: string)
    requires |sep| > 0
    ensures SecondField(s, sep).None? <==> Free(s, sep)
    ensures SecondField(s, sep).Some? ==> Free(SecondField(s, sep).value, sep)
  {
    IndexOfFinds(s, sep);
    if IndexOf(s, sep).Some? {
      var rest := s[IndexOf(s, sep).value + |sep|..];
      IndexOfFinds(rest, sep);
      if IndexOf(rest, sep).Some? {
        var j := IndexOf(rest, sep).value;
        forall k ensures !OccursAt(rest[..j], sep, k) {
          if OccursAt(rest[..j], sep, k) {
            assert rest[..j][k..k + |sep|] == rest[k..k + |sep|];
            assert OccursAt(rest, sep, k) && k < j;
          }
        }
      }
    }
  }

  /** A prefix that cannot hide an occurrence of `sep` when `sep` follows it: no
      occurrence of `sep` in `pre + sep` begins inside `pre`. */
  predicate CleanBefore(pre: string, sep: string) {
    forall k :: 0 <= k < |pre| ==> !OccursAt(pre + sep, sep, k)
  }

  /** Splitting `pre + sep + field` at `sep` gives back `field` when `pre` hides no
      occurrence and `field` holds none: the inverse of joining with `sep`. */
  lemma {:induction false} SecondFieldOfJoin(pre: string, sep: string, field: string)
    requires |sep| > 0
    requires CleanBefore(pre, sep)
    requires Free(field, sep)
    ensures SecondField(pre + sep + field, sep) == Some(field)
  {
    var s := pre + sep + field;
    assert OccursAt(s, sep, |pre|) by {
      assert s[|pre|..|pre| + |sep|] == sep;
    }
    forall k | 0 <= k < |pre|
      ensures !OccursAt(s, sep, k)
    {
      if OccursAt(s, sep, k) {
        assert (pre + sep)[k..k + |sep|] == s[k..k + |sep|];
        assert OccursAt(pre + sep, sep, k);
      }
    }
    IndexOfFinds(s, sep);
    assert IndexOf(s, sep) == Some(|pre|);
    assert s[|pre| + |sep|..] == field;
    IndexOfFinds(field, sep);
  }

  /** `s.split(c).pop()`: the text after the last `c` in `s`, or all of `s` when `c` does
      not occur. */
  function LastField(s: string, c: char): (r: string)
    ensures c !in r
    ensures |r| <= |s|
  {
    if s == [] then []
    else if s[|s| - 1] == c then []
    else LastField(s[..|s| - 1], c) + [s[|s| - 1]]
  }

  /** Whatever precedes the last `c`, the last field is the text after it. */
  lemma {:induction false} LastFieldAfter(a: string, c: char, b: string)
    requires c !in b
    ensures LastField(a + [c] + b, c) == b
    decreases |b|
  {
    var s := a + [c] + b;
    if b == [] {
      assert s[|s| - 1] == c;
    } else {
      var init := b[..|b| - 1];
      assert s[..|s| - 1] == a + [c] + init;
      assert s[|s| - 1] == b[|b| - 1];
      LastFieldAfter(a, c, init);
      assert init + [b[|b| - 1]] == b;
    }
  }

  /** The last field is a suffix of `s`, and unless it is all of `s` a `c` stands just
      before it: it is exactly the text after the last `c`. */
  lemma {:induction false} LastFieldIsSuffix(s: string, c: char)
    ensures var r := LastField(s, c);
      && r == s[|s| - |r|..]
      && (|r| < |s| ==> s[|s| - |r| - 1] == c)
      && (c !in s ==> r == s)
  {
    if s != [] && s[|s| - 1] != c {
      var init := s[..|s| - 1];
      LastFieldIsSuffix(init, c);
      var r0 := LastField(init, c);
      assert init[|init| - |r0|..] + [s[|s| - 1]] == s[|s| - |r0| - 1..];
      if c !in s {
        assert c !in init;
        assert s == init + [s[|s| - 1]];
      }
    }
  }
}
