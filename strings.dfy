/** The parts of Go's `strings` package and of SQL string matching that the
    core relies on, over Dafny strings (sequences of Unicode scalar values). */
module Strings {

  /** strings.Index with a one-character separator: the first position of `c`
      in `s`, or -1 when `c` does not occur. */
  function Index(s: string, c: char): (i: int)
    ensures -1 <= i < |s|
    ensures i >= 0 ==> s[i] == c && forall k :: 0 <= k < i ==> s[k] != c
    ensures i == -1 ==> c !in s
  {
    if s == [] then -1
    else if s[0] == c then 0
    else
      var j := Index(s[1..], c);
      if j == -1 then -1 else j + 1
  }

  /** strings.LastIndex with a one-character separator: the last position of
      `c` in `s`, or -1 when `c` does not occur. */
  function LastIndex(s: string, c: char): (i: int)
    ensures -1 <= i < |s|
    ensures i >= 0 ==> s[i] == c && forall k :: i < k < |s| ==> s[k] != c
    ensures i == -1 ==> c !in s
  {
    if s == [] then -1
    else if s[|s| - 1] == c then |s| - 1
    else LastIndex(s[..|s| - 1], c)
  }

  /** The position Index reports is the first occurrence. */
  lemma IndexAt(s: string, c: char, i: int)
    requires 0 <= i < |s| && s[i] == c && forall k :: 0 <= k < i ==> s[k] != c
    ensures Index(s, c) == i
  {
  }

  /** The position LastIndex reports is the last occurrence. */
  lemma LastIndexAt(s: string, c: char, i: int)
    requires 0 <= i < |s| && s[i] == c && forall k :: i < k < |s| ==> s[k] != c
    ensures LastIndex(s, c) == i
  {
  }

  /** Byte-wise (code point) ordering of strings, the order CockroachDB uses
      for STRING columns under the default collation. */
  predicate LexLe(a: string, b: string)
  {
    a == [] || (b != [] && (a[0] < b[0] || (a[0] == b[0] && LexLe(a[1..], b[1..]))))
  }

  lemma {:induction false} LexLeTotal(a: string, b: string)
    ensures LexLe(a, b) || LexLe(b, a)
  {
    if a != [] && b != [] && a[0] == b[0] {
      LexLeTotal(a[1..], b[1..]);
    }
  }

  lemma {:induction false} LexLeTransitive(a: string, b: string, c: string)
    requires LexLe(a, b) && LexLe(b, c)
    ensures LexLe(a, c)
  {
    if a != [] && b != [] && c != [] && a[0] == b[0] == c[0] {
      LexLeTransitive(a[1..], b[1..], c[1..]);
    }
  }

  /** unicode.ToUpper restricted to the code points whose upper case is an
      ASCII letter: a-z, dotless i and long s. Every other code point is
      returned unchanged (see README, Left out). */
  function UpperRune(c: char): char
  {
    if 'a' <= c <= 'z' then (c as int - 32) as char
    else if c == '\U{0131}' then 'I'
    else if c == '\U{017F}' then 'S'
    else c
  }

  function ToUpper(s: string): (r: string)
    ensures |r| == |s| && forall i :: 0 <= i < |s| ==> r[i] == UpperRune(s[i])
  {
    seq(|s|, i requires 0 <= i < |s| => UpperRune(s[i]))
  }

  /** The spellings that strings.ToUpper turns into "ASC". */
  lemma ToUpperIsAsc(s: string)
    ensures ToUpper(s) == "ASC" <==>
      |s| == 3 && s[0] in "aA" && s[1] in "sS\U{017F}" && s[2] in "cC"
  {
    if ToUpper(s) == "ASC" {
      assert UpperRune(s[0]) == 'A' && UpperRune(s[1]) == 'S' && UpperRune(s[2]) == 'C';
    }
    if |s| == 3 && s[0] in "aA" && s[1] in "sS\U{017F}" && s[2] in "cC" {
      assert ToUpper(s) == [ToUpper(s)[0], ToUpper(s)[1], ToUpper(s)[2]];
    }
  }

  /** The spellings that strings.ToUpper turns into "DESC". */
  lemma ToUpperIsDesc(s: string)
    ensures ToUpper(s) == "DESC" <==>
      |s| == 4 && s[0] in "dD" && s[1] in "eE" && s[2] in "sS\U{017F}" && s[3] in "cC"
  {
    if ToUpper(s) == "DESC" {
      assert UpperRune(s[0]) == 'D' && UpperRune(s[1]) == 'E';
      assert UpperRune(s[2]) == 'S' && UpperRune(s[3]) == 'C';
    }
    if |s| == 4 && s[0] in "dD" && s[1] in "eE" && s[2] in "sS\U{017F}" && s[3] in "cC" {
      assert ToUpper(s) == [ToUpper(s)[0], ToUpper(s)[1], ToUpper(s)[2], ToUpper(s)[3]];
    }
  }

  /** ASCII lower-casing, the case folding ILIKE applies to both sides. */
  function LowerRune(c: char): char
  {
    if 'A' <= c <= 'Z' then (c as int + 32) as char else c
  }

  function Lower(s: string): (r: string)
    ensures |r| == |s| && forall i :: 0 <= i < |s| ==> r[i] == LowerRune(s[i])
  {
    seq(|s|, i requires 0 <= i < |s| => LowerRune(s[i]))
  }

  /** `s` occurs in `t` starting at position `k`. */
  predicate OccursAt(t: string, s: string, k: int)
  {
    0 <= k && k + |s| <= |t| && t[k..k + |s|] == s
  }

  /** `s` occurs in `t` as a contiguous piece. */
  predicate Contains(t: string, s: string)
  {
    exists k | 0 <= k <= |t| :: OccursAt(t, s, k)
  }

  /** SQL LIKE: '%' matches any run of characters, '_' exactly one, and a
      backslash makes the next pattern character literal. */
  predicate Like(pattern: string, s: string)
    decreases |pattern|
  {
    if pattern == [] then s == []
    else if pattern[0] == '%' then exists k | 0 <= k <= |s| :: Like(pattern[1..], s[k..])
    else if pattern[0] == '_' then s != [] && Like(pattern[1..], s[1..])
    else if pattern[0] == '\\' && |pattern| >= 2 then
      s != [] && s[0] == pattern[1] && Like(pattern[2..], s[1..])
    else s != [] && s[0] == pattern[0] && Like(pattern[1..], s[1..])
  }

  /** SQL ILIKE: LIKE after lower-casing both sides. */
  predicate ILike(s: string, pattern: string)
  {
    Like(Lower(pattern), Lower(s))
  }

  /** No LIKE metacharacter occurs in `p`. */
  predicate NoLikeMeta(p: string)
  {
    '%' !in p && '_' !in p && '\\' !in p
  }

  /** A meta-free pattern followed by '%' matches exactly the strings it
      prefixes. */
  lemma {:induction false} LikePrefix(p: string, s: string)
    requires NoLikeMeta(p)
    ensures Like(p + "%", s) <==> |p| <= |s| && s[..|p|] == p
  {
    if p == [] {
      assert p + "%" == "%";
      assert Like("", s[|s|..]);
    } else {
      assert (p + "%")[0] == p[0];
      assert (p + "%")[1..] == p[1..] + "%";
      if s != [] {
        LikePrefix(p[1..], s[1..]);
        if |p| <= |s| && s[..|p|] == p {
          assert s[1..][..|p[1..]|] == p[1..];
        }
        if s[0] == p[0] && |p[1..]| <= |s[1..]| && s[1..][..|p[1..]|] == p[1..] {
          assert s[..|p|] == [s[0]] + s[1..][..|p[1..]|];
        }
      }
    }
  }

  /** The pattern "%" + p + "%" used for partial ticker search matches exactly
      the strings that contain `p`, when `p` has no metacharacter. */
  lemma LikeInfixIsContains(p: string, s: string)
    requires NoLikeMeta(p)
    ensures Like("%" + p + "%", s) <==> Contains(s, p)
  {
    var pat := "%" + p + "%";
    assert pat[0] == '%' && pat[1..] == p + "%";
    if Like(pat, s) {
      var k :| 0 <= k <= |s| && Like(p + "%", s[k..]);
      LikePrefix(p, s[k..]);
      assert s[k..k + |p|] == s[k..][..|p|];
      assert OccursAt(s, p, k);
    }
    if Contains(s, p) {
      var k :| 0 <= k <= |s| && OccursAt(s, p, k);
      LikePrefix(p, s[k..]);
      assert s[k..][..|p|] == s[k..k + |p|];
      assert Like(pat[1..], s[k..]);
    }
  }

  lemma LowerKeepsNoMeta(p: string)
    requires NoLikeMeta(p)
    ensures NoLikeMeta(Lower(p))
  {
    forall i | 0 <= i < |p| ensures Lower(p)[i] != '%' && Lower(p)[i] != '_' && Lower(p)[i] != '\\' {
      assert p[i] != '%' && p[i] != '_' && p[i] != '\\';
    }
  }

  /** Partial, case-insensitive search: ILIKE "%" + p + "%" holds exactly when
      the lower-cased `s` contains the lower-cased `p`. */
  lemma ILikeInfixIsContains(p: string, s: string)
    requires NoLikeMeta(p)
    ensures ILike(s, "%" + p + "%") <==> Contains(Lower(s), Lower(p))
  {
    assert Lower("%" + p + "%") == "%" + Lower(p) + "%";
    LowerKeepsNoMeta(p);
    LikeInfixIsContains(Lower(p), Lower(s));
  }
}
