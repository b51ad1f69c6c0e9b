/**
 * The parts of Go's `strings` package and of Go's string ordering that the
 * handlers rely on, over `seq<char>`.
 */
module GoStrings {

  /** `p` occurs in `s` starting at index `i`. */
  predicate OccursAt(s: string, p: string, i: nat)
  {
    i + |p| <= |s| && s[i..i + |p|] == p
  }

  /** `p` occurs somewhere in `s` (`strings.Contains`). */
  predicate Contains(s: string, p: string)
  {
    exists i: nat | i <= |s| :: OccursAt(s, p, i)
  }

  /**
   * `strings.ReplaceAll(s, pat, rep)` for a non-empty `pat`: scanning from the
   * left, every non-overlapping occurrence of `pat` is replaced by `rep`; the
   * inserted text is never scanned again.
   */
  function ReplaceAll(s: string, pat: string, rep: string): string
    requires |pat| > 0
    decreases |s|
  {
    if |s| < |pat| then s
    else if s[..|pat|] == pat then rep + ReplaceAll(s[|pat|..], pat, rep)
    else [s[0]] + ReplaceAll(s[1..], pat, rep)
  }

  /** A text in which the first character of `pat` does not appear is kept by `ReplaceAll` in front of any rest. */
  lemma {:induction false} ReplaceAllSkipsPrefix(a: string, t: string, pat: string, rep: string)
    requires |pat| > 0 && pat[0] !in a
    ensures ReplaceAll(a + t, pat, rep) == a + ReplaceAll(t, pat, rep)
    decreases |a|
  {
    if a != [] {
      var s := a + t;
      assert s[0] == a[0] && a[0] in a;
      if |s| < |pat| {
        assert ReplaceAll(t, pat, rep) == t;
        assert ReplaceAll(s, pat, rep) == s;
      } else {
        assert s[..|pat|][0] != pat[0];
        assert ReplaceAll(s, pat, rep) == [s[0]] + ReplaceAll(s[1..], pat, rep);
        assert s[1..] == a[1..] + t;
        ReplaceAllSkipsPrefix(a[1..], t, pat, rep);
        assert ReplaceAll(s, pat, rep) == [a[0]] + (a[1..] + ReplaceAll(t, pat, rep));
        assert a == [a[0]] + a[1..];
      }
    } else {
      assert a + t == t;
    }
  }

  /** An occurrence of `pat` at the very front is replaced and the scan goes on after it. */
  lemma ReplaceAllAtFront(t: string, pat: string, rep: string)
    requires |pat| > 0
    ensures ReplaceAll(pat + t, pat, rep) == rep + ReplaceAll(t, pat, rep)
  {
    var s := pat + t;
    assert s[..|pat|] == pat;
    assert s[|pat|..] == t;
  }

  /** For a one-character pattern, `ReplaceAll` works character by character, so it distributes over `+`. */
  lemma {:induction false} ReplaceCharConcat(a: string, b: string, c: char, rep: string)
    ensures ReplaceAll(a + b, [c], rep) == ReplaceAll(a, [c], rep) + ReplaceAll(b, [c], rep)
    decreases |a|
  {
    if a != [] {
      var s := a + b;
      var head := if a[..1] == [c] then rep else [a[0]];
      assert s[1..] == a[1..] + b;
      assert s[..1] == a[..1];
      assert ReplaceAll(s, [c], rep) == head + ReplaceAll(s[1..], [c], rep);
      assert ReplaceAll(a, [c], rep) == head + ReplaceAll(a[1..], [c], rep);
      ReplaceCharConcat(a[1..], b, c, rep);
    } else {
      assert a + b == b;
    }
  }

  /** A text without the character `c` is left unchanged by replacing `c`. */
  lemma {:induction false} ReplaceCharAbsent(s: string, c: char, rep: string)
    requires c !in s
    ensures ReplaceAll(s, [c], rep) == s
    decreases |s|
  {
    if s != [] {
      assert s[..1] == [s[0]];
      assert s[0] in s;
      assert forall x :: x in s[1..] ==> x in s;
      ReplaceCharAbsent(s[1..], c, rep);
      assert s == [s[0]] + s[1..];
    }
  }

  /** Replacing a character that occurs neither in `h` nor in `t` changes only the middle of `h + (m + t)`. */
  lemma ReplaceCharBetween(h: string, m: string, t: string, c: char, rep: string)
    requires c !in h && c !in t
    ensures ReplaceAll(h + (m + t), [c], rep) == h + ReplaceAll(m, [c], rep) + t
  {
    ReplaceCharConcat(h, m + t, c, rep);
    ReplaceCharConcat(m, t, c, rep);
    ReplaceCharAbsent(h, c, rep);
    ReplaceCharAbsent(t, c, rep);
  }

  /** No character of `t` occurs in `p`. */
  predicate Disjoint(t: string, p: string)
  {
    forall k :: 0 <= k < |t| ==> t[k] !in p
  }

  /**
   * If the result of `ReplaceAll` starts with a text made of characters of
   * `pat`, that text came from characters of `t` that were kept.
   */
  lemma {:induction false} ReplaceAllKeepsPrefix(t: string, q: string, pat: string, rep: string)
    requires |pat| > 0 && |rep| > 0 && Disjoint(rep, pat)
    requires forall k :: 0 <= k < |q| ==> q[k] in pat
    ensures HasPrefix(ReplaceAll(t, pat, rep), q) ==> HasPrefix(t, q)
    decreases |q|
  {
    if q != [] {
      var r := ReplaceAll(t, pat, rep);
      if |t| < |pat| {
      } else if t[..|pat|] == pat {
        assert r[0] == rep[0] && rep[0] !in pat && q[0] in pat;
        assert !HasPrefix(r, q) by { assert r[0] != q[0]; }
      } else {
        var rest := ReplaceAll(t[1..], pat, rep);
        assert r == [t[0]] + rest;
        ReplaceAllKeepsPrefix(t[1..], q[1..], pat, rep);
        if HasPrefix(r, q) {
          assert rest[..|q| - 1] == r[1..|q|] == q[1..];
          assert t[..|q|] == [t[0]] + t[1..][..|q| - 1];
        }
      }
    }
  }

  /** After an occurrence at the front: `rep + rest` has no `pat` when `rest` has none and `rep` shares no character with `pat`. */
  lemma NoOccurrenceAfterReplacement(rest: string, pat: string, rep: string)
    requires |pat| > 0 && Disjoint(rep, pat) && !Contains(rest, pat)
    ensures !Contains(rep + rest, pat)
  {
    var r := rep + rest;
    forall i: nat ensures !OccursAt(r, pat, i) {
      if i + |pat| <= |r| {
        if i < |rep| {
          assert r[i..i + |pat|][0] == rep[i] && rep[i] !in pat;
        } else {
          assert r[i..i + |pat|] == rest[i - |rep|..i - |rep| + |pat|];
          assert !OccursAt(rest, pat, i - |rep|);
        }
      }
    }
  }

  /** If `pat` starts `[c] + rest` and a prefix `pat[1..]` of `rest` is also one of `t`, then `pat` starts `[c] + t`. */
  lemma ConsPrefix(c: char, rest: string, t: string, pat: string)
    requires |pat| > 0
    requires HasPrefix(rest, pat[1..]) ==> HasPrefix(t, pat[1..])
    ensures OccursAt([c] + rest, pat, 0) ==> HasPrefix([c] + t, pat)
  {
    if OccursAt([c] + rest, pat, 0) {
      assert ([c] + rest)[..|pat|] == [c] + rest[..|pat| - 1];
      assert pat == [pat[0]] + pat[1..];
      assert ([c] + t)[..|pat|] == [c] + t[..|pat| - 1];
    }
  }

  /** A kept first character starts no occurrence: the text did not start with `pat`, and `ReplaceAll` keeps any text made of characters of `pat`. */
  lemma NoOccurrenceAtKeptFront(s: string, pat: string, rep: string)
    requires |pat| > 0 && |rep| > 0 && Disjoint(rep, pat) && |s| >= |pat| && s[..|pat|] != pat
    ensures !OccursAt([s[0]] + ReplaceAll(s[1..], pat, rep), pat, 0)
  {
    var q := pat[1..];
    assert forall k :: 0 <= k < |q| ==> q[k] == pat[k + 1];
    ReplaceAllKeepsPrefix(s[1..], q, pat, rep);
    ConsPrefix(s[0], ReplaceAll(s[1..], pat, rep), s[1..], pat);
    assert [s[0]] + s[1..] == s;
  }

  /** One character in front of a text without `pat` adds no occurrence, except possibly at the front. */
  lemma NoOccurrenceAfterChar(c: char, rest: string, pat: string)
    requires |pat| > 0 && !Contains(rest, pat) && !OccursAt([c] + rest, pat, 0)
    ensures !Contains([c] + rest, pat)
  {
    var r := [c] + rest;
    forall i: nat | 0 < i && i + |pat| <= |r| ensures !OccursAt(r, pat, i) {
      assert r[i..i + |pat|] == rest[i - 1..i - 1 + |pat|];
      assert !OccursAt(rest, pat, i - 1);
    }
  }

  /**
   * `ReplaceAll` removes every occurrence of `pat` when the replacement is
   * non-empty and shares no character with `pat`: no occurrence survives and
   * none is formed across a boundary.
   */
  lemma {:induction false} ReplaceAllRemovesAll(s: string, pat: string, rep: string)
    requires |pat| > 0 && |rep| > 0 && Disjoint(rep, pat)
    ensures !Contains(ReplaceAll(s, pat, rep), pat)
    decreases |s|
  {
    if |s| < |pat| {
      assert forall i: nat :: !OccursAt(s, pat, i);
    } else if s[..|pat|] == pat {
      ReplaceAllRemovesAll(s[|pat|..], pat, rep);
      NoOccurrenceAfterReplacement(ReplaceAll(s[|pat|..], pat, rep), pat, rep);
    } else {
      ReplaceAllRemovesAll(s[1..], pat, rep);
      NoOccurrenceAtKeptFront(s, pat, rep);
      NoOccurrenceAfterChar(s[0], ReplaceAll(s[1..], pat, rep), pat);
    }
  }

  /** A text in which the one-character string `[c]` does not occur has no `c` at any index. */
  lemma NoOccurrenceOfChar(s: string, c: char)
    requires !Contains(s, [c])
    ensures forall k :: 0 <= k < |s| ==> s[k] != c
  {
    forall k | 0 <= k < |s| ensures s[k] != c {
      assert s[k..k + 1] == [s[k]];
      assert !OccursAt(s, [c], k);
    }
  }

  /** `strings.HasPrefix`. */
  predicate HasPrefix(s: string, prefix: string)
  {
    |prefix| <= |s| && s[..|prefix|] == prefix
  }

  /** `strings.HasSuffix`. */
  predicate HasSuffix(s: string, suffix: string)
  {
    |suffix| <= |s| && s[|s| - |suffix|..] == suffix
  }

  /** `strings.TrimPrefix`: one leading `prefix` is removed if present, otherwise `s` is returned unchanged. */
  function TrimPrefix(s: string, prefix: string): (r: string)
    ensures HasPrefix(s, prefix) ==> prefix + r == s
    ensures !HasPrefix(s, prefix) ==> r == s
  {
    if HasPrefix(s, prefix) then s[|prefix|..] else s
  }

  /** `strings.Join`: the elements in order with `sep` between neighbours. */
  function Join(elems: seq<string>, sep: string): (r: string)
    ensures |elems| > 0 ==> HasPrefix(r, elems[0])
    ensures |elems| > 0 ==> |elems[|elems| - 1]| <= |r| && r[|r| - |elems[|elems| - 1]|..] == elems[|elems| - 1]
    ensures |elems| > 1 ==> |r| >= |elems[0]| + |sep| + |elems[|elems| - 1]|
  {
    if |elems| == 0 then ""
    else if |elems| == 1 then elems[0]
    else elems[0] + sep + Join(elems[1..], sep)
  }

  /** Go's string comparison `a < b`: byte-wise lexicographic; on characters this is code-point order, which UTF-8 preserves. */
  predicate Less(a: string, b: string)
    decreases |a|
  {
    if |a| == 0 then |b| > 0
    else if |b| == 0 then false
    else if a[0] != b[0] then a[0] < b[0]
    else Less(a[1..], b[1..])
  }

  /** No string comes before itself. */
  lemma {:induction false} LessIrreflexive(a: string)
    ensures !Less(a, a)
    decreases |a|
  {
    if |a| > 0 { LessIrreflexive(a[1..]); }
  }

  /** A proper prefix comes before the longer string, as in Go's byte-wise comparison. */
  lemma {:induction false} ProperPrefixIsLess(a: string, b: string)
    ensures |a| < |b| && a == b[..|a|] ==> Less(a, b)
    decreases |a|
  {
    if 0 < |a| < |b| && a == b[..|a|] {
      assert a[0] == b[0];
      assert a[1..] == b[1..][..|a| - 1];
      ProperPrefixIsLess(a[1..], b[1..]);
    }
  }

  lemma {:induction false} LessTransitive(a: string, b: string, c: string)
    ensures Less(a, b) && Less(b, c) ==> Less(a, c)
    decreases |a|
  {
    if |a| > 0 && |b| > 0 && |c| > 0 && a[0] == b[0] && b[0] == c[0] {
      LessTransitive(a[1..], b[1..], c[1..]);
    }
  }

  lemma {:induction false} LessTotal(a: string, b: string)
    ensures a == b || Less(a, b) || Less(b, a)
    decreases |a|
  {
    if |a| > 0 && |b| > 0 && a[0] == b[0] {
      assert a == [a[0]] + a[1..] && b == [b[0]] + b[1..];
      LessTotal(a[1..], b[1..]);
    }
  }

  /** At most one of `a < b` and `b < a` holds. */
  lemma LessAsymmetric(a: string, b: string)
    ensures Less(a, b) ==> !Less(b, a)
  {
  }

  /** Strings with no `a < b` either way are equal: `Less` is a strict total order. */
  lemma LessAntisymmetric(a: string, b: string)
    ensures !Less(a, b) && !Less(b, a) ==> a == b
  {
    LessTotal(a, b);
  }

  /** "Not after" is transitive: `a <= b` and `b <= c` give `a <= c`. */
  lemma LessNegativelyTransitive(a: string, b: string, c: string)
    ensures !Less(b, a) && !Less(c, b) ==> !Less(c, a)
  {
    LessTotal(a, b);
    LessTransitive(b, a, c);
    LessTransitive(c, a, b);
    LessTotal(b, c);
    LessTransitive(c, b, a);
  }
}
