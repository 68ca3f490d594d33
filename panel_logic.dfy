/** The pure logic of the practice-question panel: JavaScript's `trim` and `toLowerCase`
    as the answer check uses them, the answer comparison, and the cycling question index. */
module PanelLogic {
  /** The characters JavaScript's `trim` removes: white space and line terminators. */
  predicate IsWhitespace(c: char)
  {
    c in Whitespace
  }

  const Whitespace: set<char> :=
    {'\U{0009}', '\U{000A}', '\U{000B}', '\U{000C}', '\U{000D}', '\U{0020}', '\U{00A0}', '\U{1680}',
     '\U{2000}', '\U{2001}', '\U{2002}', '\U{2003}', '\U{2004}', '\U{2005}', '\U{2006}', '\U{2007}',
     '\U{2008}', '\U{2009}', '\U{200A}', '\U{2028}', '\U{2029}', '\U{202F}', '\U{205F}', '\U{3000}',
     '\U{FEFF}'}

  predicate AllWhitespace(s: string)
  {
    forall k :: 0 <= k < |s| ==> IsWhitespace(s[k])
  }

  /** Neither end of `s` is whitespace. */
  predicate EdgeClean(s: string)
  {
    s != [] ==> !IsWhitespace(s[0]) && !IsWhitespace(s[|s| - 1])
  }

  /** `s` without its leading whitespace: the longest suffix that does not start with it. */
  function TrimStart(s: string): (r: string)
    ensures |r| <= |s| && r == s[|s| - |r|..]
    ensures AllWhitespace(s[..|s| - |r|])
    ensures r != [] ==> !IsWhitespace(r[0])
  {
    if s != [] && IsWhitespace(s[0]) then
      var r := TrimStart(s[1..]);
      var pad, pad' := s[..|s| - |r|], s[1..][..|s| - 1 - |r|];
      assert AllWhitespace(pad) by {
        forall k | 0 <= k < |pad| ensures IsWhitespace(pad[k]) {
          if k > 0 {
            assert pad[k] == pad'[k - 1];
          }
        }
      }
      r
    else
      s
  }

  /** `s` without its trailing whitespace: the longest prefix that does not end with it. */
  function TrimEnd(s: string): (r: string)
    ensures |r| <= |s| && r == s[..|r|]
    ensures AllWhitespace(s[|r|..])
    ensures r != [] ==> !IsWhitespace(r[|r| - 1])
  {
    if s != [] && IsWhitespace(s[|s| - 1]) then
      var r := TrimEnd(s[..|s| - 1]);
      var pad, pad' := s[|r|..], s[..|s| - 1][|r|..];
      assert AllWhitespace(pad) by {
        forall k | 0 <= k < |pad| ensures IsWhitespace(pad[k]) {
          if k < |pad'| {
            assert pad[k] == pad'[k];
          }
        }
      }
      r
    else
      s
  }

  /** `trim`: both ends stripped. Empty exactly when `s` is all whitespace. */
  function Trim(s: string): (r: string)
    ensures EdgeClean(r)
    ensures |r| <= |s|
    ensures r == [] <==> AllWhitespace(s)
  {
    var t := TrimStart(s);
    var r := TrimEnd(t);
    assert r == [] ==> AllWhitespace(s) by {
      if r == [] {
        assert s == s[..|s| - |t|] + t;
        assert AllWhitespace(t) by { assert t == t[|r|..]; }
      }
    }
    assert r != [] ==> !AllWhitespace(s) by {
      if r != [] {
        assert s[|s| - |t|] == t[0] == r[0];
      }
    }
    r
  }

  lemma {:induction false} TrimStartSkipsPadding(p: string, t: string)
    requires AllWhitespace(p)
    ensures TrimStart(p + t) == TrimStart(t)
  {
    if p != [] {
      var rest := p[1..];
      assert AllWhitespace(rest) by {
        forall k | 0 <= k < |rest| ensures IsWhitespace(rest[k]) {
          assert rest[k] == p[k + 1];
        }
      }
      assert (p + t)[0] == p[0] && (p + t)[1..] == rest + t;
      TrimStartSkipsPadding(rest, t);
      calc {
        TrimStart(p + t);
        TrimStart((p + t)[1..]);
        TrimStart(rest + t);
      }
    } else {
      assert p + t == t;
    }
  }

  lemma {:induction false} TrimEndSkipsPadding(t: string, q: string)
    requires AllWhitespace(q)
    ensures TrimEnd(t + q) == TrimEnd(t)
  {
    if q != [] {
      var front := q[..|q| - 1];
      assert AllWhitespace(front) by {
        forall k | 0 <= k < |front| ensures IsWhitespace(front[k]) {
          assert front[k] == q[k];
        }
      }
      var tq := t + q;
      assert tq[|tq| - 1] == q[|q| - 1] && tq[..|tq| - 1] == t + front;
      TrimEndSkipsPadding(t, front);
      calc {
        TrimEnd(tq);
        TrimEnd(tq[..|tq| - 1]);
        TrimEnd(t + front);
      }
    } else {
      assert t + q == t;
    }
  }

  /** `trim` removes exactly the whitespace padding around an edge-clean core. */
  lemma TrimOfPadded(p: string, core: string, q: string)
    requires AllWhitespace(p) && AllWhitespace(q) && EdgeClean(core)
    ensures Trim(p + core + q) == core
  {
    assert p + core + q == p + (core + q);
    TrimStartSkipsPadding(p, core + q);
    if core == [] {
      assert core + q == q;
      TrimStartSkipsPadding(q, []);
      assert q + [] == q;
    } else {
      assert TrimStart(core + q) == core + q;
      TrimEndSkipsPadding(core, q);
    }
  }

  /** Every string is its trimmed core with whitespace padding on both sides. */
  lemma TrimSplit(s: string) returns (p: string, q: string)
    ensures AllWhitespace(p) && AllWhitespace(q) && s == p + Trim(s) + q
  {
    var t := TrimStart(s);
    var r := TrimEnd(t);
    assert Trim(s) == r;
    p, q := s[..|s| - |t|], t[|r|..];
    assert AllWhitespace(p) && AllWhitespace(q);
    SplitAt(s, |s| - |t|);
    SplitAt(t, |r|);
    assert s == p + (r + q);
    Regroup3(p, r, q);
  }

  lemma Regroup3(a: string, b: string, c: string)
    ensures a + (b + c) == a + b + c
  {
  }

  lemma SplitAt(s: string, i: nat)
    requires i <= |s|
    ensures s == s[..i] + s[i..]
  {
  }

  /** Trimming twice is trimming once. */
  lemma TrimIdempotent(s: string)
    ensures Trim(Trim(s)) == Trim(s)
  {
    TrimOfClean(Trim(s));
  }

  /** An edge-clean string is its own trimmed form. */
  lemma TrimOfClean(s: string)
    requires EdgeClean(s)
    ensures Trim(s) == s
  {
    assert TrimStart(s) == s;
    assert TrimEnd(s) == s;
  }

  /** Extra whitespace around a string does not change its trimmed form. */
  lemma TrimIgnoresPadding(p: string, s: string, q: string)
    requires AllWhitespace(p) && AllWhitespace(q)
    ensures Trim(p + s + q) == Trim(s)
  {
    var p', q' := TrimSplit(s);
    var core := Trim(s);
    var P, Q := p + p', q' + q;
    WhitespaceConcat(p, p');
    WhitespaceConcat(q', q);
    Regroup(p, p', core, q', q);
    TrimOfPadded(P, core, Q);
  }

  lemma Regroup(a: string, b: string, c: string, d: string, e: string)
    ensures a + (b + c + d) + e == (a + b) + c + (d + e)
  {
  }

  lemma WhitespaceConcat(a: string, b: string)
    requires AllWhitespace(a) && AllWhitespace(b)
    ensures AllWhitespace(a + b)
  {
    forall k | 0 <= k < |a + b| ensures IsWhitespace((a + b)[k]) {
      if k < |a| {
        assert (a + b)[k] == a[k];
      } else {
        assert (a + b)[k] == b[k - |a|];
      }
    }
  }

  /** `toLowerCase` on one character; only the ASCII capitals are mapped. */
  function LowerChar(c: char): (d: char)
    ensures IsWhitespace(d) <==> IsWhitespace(c)
    ensures !('A' <= d <= 'Z')
  {
    if 'A' <= c <= 'Z' then (c as int + 32) as char else c
  }

  function ToLower(s: string): (r: string)
    ensures |r| == |s|
    ensures forall k :: 0 <= k < |s| ==> r[k] == LowerChar(s[k])
  {
    seq(|s|, k requires 0 <= k < |s| => LowerChar(s[k]))
  }

  lemma ToLowerIdempotent(s: string)
    ensures ToLower(ToLower(s)) == ToLower(s)
  {
  }

  lemma ToLowerAppend(s: string, t: string)
    ensures ToLower(s + t) == ToLower(s) + ToLower(t)
  {
  }

  /** `toLowerCase` and `trim` commute: lower-casing never creates or removes whitespace. */
  lemma TrimToLowerCommute(s: string)
    ensures Trim(ToLower(s)) == ToLower(Trim(s))
  {
    var p, q := TrimSplit(s);
    var core := Trim(s);
    ToLowerAppend(p + core, q);
    ToLowerAppend(p, core);
    LowerKeepsWhitespace(p);
    LowerKeepsWhitespace(q);
    LowerKeepsEdges(core);
    TrimOfPadded(ToLower(p), ToLower(core), ToLower(q));
  }

  /** Lower-casing maps all-whitespace strings, and only those, to all-whitespace strings. */
  lemma LowerKeepsWhitespace(s: string)
    ensures AllWhitespace(ToLower(s)) <==> AllWhitespace(s)
  {
    var e := ToLower(s);
    assert forall k :: 0 <= k < |s| ==> e[k] == LowerChar(s[k]);
  }

  /** The answer check: the user's answer, lower-cased and trimmed, equals the expected
      answer lower-cased (the expected answer is not trimmed). */
  predicate IsCorrectAnswer(userAnswer: string, expected: string)
  {
    Trim(ToLower(userAnswer)) == ToLower(expected)
  }

  /** The check compares lowercase(trim(answer)) with lowercase(expected). */
  lemma AnswerCheckIsTrimThenLower(userAnswer: string, expected: string)
    ensures IsCorrectAnswer(userAnswer, expected) <==> ToLower(Trim(userAnswer)) == ToLower(expected)
  {
    TrimToLowerCommute(userAnswer);
  }

  /** Surrounding whitespace and letter case of the user's answer never change the verdict. */
  lemma AnswerCheckIgnoresPaddingAndCase(p: string, userAnswer: string, q: string, expected: string)
    requires AllWhitespace(p) && AllWhitespace(q)
    ensures IsCorrectAnswer(p + userAnswer + q, expected) <==> IsCorrectAnswer(userAnswer, expected)
    ensures IsCorrectAnswer(ToLower(userAnswer), expected) <==> IsCorrectAnswer(userAnswer, expected)
  {
    ToLowerAppend(p + userAnswer, q);
    ToLowerAppend(p, userAnswer);
    assert AllWhitespace(ToLower(p)) && AllWhitespace(ToLower(q));
    TrimIgnoresPadding(ToLower(p), ToLower(userAnswer), ToLower(q));
    ToLowerIdempotent(userAnswer);
  }

  /** Because the expected answer is not trimmed, an expected answer that starts or ends with
      whitespace can never be matched. */
  lemma PaddedExpectedNeverMatches(userAnswer: string, expected: string)
    requires !EdgeClean(expected)
    ensures !IsCorrectAnswer(userAnswer, expected)
  {
    LowerKeepsEdges(expected);
    assert EdgeClean(Trim(ToLower(userAnswer)));
  }

  /** An edge-clean expected answer is matched by itself, in any letter case. */
  lemma CleanExpectedMatchesItself(expected: string)
    requires EdgeClean(expected)
    ensures IsCorrectAnswer(expected, expected)
  {
    LowerKeepsEdges(expected);
    TrimOfClean(ToLower(expected));
  }

  /** Lower-casing leaves the ends whitespace or not, as they were. */
  lemma LowerKeepsEdges(s: string)
    ensures EdgeClean(ToLower(s)) <==> EdgeClean(s)
  {
    var e := ToLower(s);
    if s != [] {
      assert e[0] == LowerChar(s[0]) && e[|e| - 1] == LowerChar(s[|s| - 1]);
    }
  }

  /** The next question index: one past, wrapping to 0 after the last question. */
  function NextIndex(i: nat, n: nat): (r: nat)
    requires i < n
    ensures r < n
    ensures r == if i + 1 < n then i + 1 else 0
  {
    (i + 1) % n
  }

  /** The index reached from 0 after `k` presses of Next Question. */
  function IndexAfter(k: nat, n: nat): (r: nat)
    requires n > 0
    ensures r < n
  {
    if k == 0 then 0 else NextIndex(IndexAfter(k - 1, n), n)
  }

  /** Below the question count, `k` presses reach question `k`. */
  lemma {:induction false} IndexAfterBelow(k: nat, n: nat)
    requires 0 < n && k < n
    ensures IndexAfter(k, n) == k
  {
    if k > 0 {
      IndexAfterBelow(k - 1, n);
    }
  }

  /** `n` more presses come back to the same question. */
  lemma {:induction false} IndexAfterPeriodic(k: nat, n: nat)
    requires n > 0
    ensures IndexAfter(k + n, n) == IndexAfter(k, n)
  {
    if k == 0 {
      IndexAfterBelow(n - 1, n);
    } else {
      IndexAfterPeriodic(k - 1, n);
      assert k + n - 1 == (k - 1) + n;
    }
  }

  /** After `k` presses the panel shows question `k mod n`: the index cycles with period n. */
  lemma {:induction false} IndexAfterIsMod(k: nat, n: nat)
    requires n > 0
    ensures IndexAfter(k, n) == k % n
    decreases k
  {
    if k < n {
      IndexAfterBelow(k, n);
    } else {
      IndexAfterIsMod(k - n, n);
      IndexAfterPeriodic(k - n, n);
      ModShift(k, n);
    }
  }

  /** Subtracting the divisor keeps the remainder. */
  lemma ModShift(k: int, n: int)
    requires 0 < n <= k
    ensures (k - n) % n == k % n
  {
    var q := k / n;
    assert k == q * n + k % n;
    assert (q - 1) * n == q * n - n;
    ModUnique(k - n, n, q - 1, k % n);
  }

  lemma MulAtLeast(d: int, n: int)
    requires d >= 1 && n > 0
    ensures d * n >= n
  {
    assert d * n == (d - 1) * n + n;
    assert (d - 1) * n >= 0;
  }

  /** The remainder is the unique `r` in [0, n) with `a == q * n + r`. */
  lemma ModUnique(a: int, n: int, q: int, r: int)
    requires 0 < n && 0 <= r < n && a == q * n + r
    ensures a % n == r
  {
    var q', r' := a / n, a % n;
    assert a == q' * n + r';
    assert (q - q') * n == q * n - q' * n;
    if q > q' {
      MulAtLeast(q - q', n);
    } else if q < q' {
      assert (q' - q) * n == q' * n - q * n;
      MulAtLeast(q' - q, n);
    }
  }
}
