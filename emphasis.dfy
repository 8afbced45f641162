/**
 * Inline emphasis: the global, non-greedy substitution of `**text**` by
 * `<strong>text</strong>` that the response compiler applies to each line
 * (src/App.tsx:66: the pattern is two asterisks, a lazy `.*?` group, two
 * asterisks, with the global flag).
 *
 * The scan is JavaScript's: at each position, try a match; the body grows
 * one character at a time (lazy `.*?`) and the first closing `**` wins; `.`
 * never crosses a line terminator; after a match the scan resumes behind it,
 * otherwise one character is kept literally and the scan moves on.
 */
module Emphasis {
  import opened Wrappers

  /** The characters the regular-expression `.` does not match. */
  predicate IsLineTerminator(c: char)
  {
    c == '\n' || c == '\r' || c == '\U{2028}' || c == '\U{2029}'
  }

  /** A `**` delimiter starts at position k of s. */
  predicate PairAt(s: string, k: int)
  {
    0 <= k && k + 1 < |s| && s[k] == '*' && s[k + 1] == '*'
  }

  /** s contains no `**` at all. */
  predicate NoPair(s: string)
  {
    forall k :: 0 <= k < |s| ==> !PairAt(s, k)
  }

  /** No line terminator among s[i..j], so `.*` can span it. */
  predicate Clear(s: string, i: int, j: int)
  {
    forall k :: 0 <= i <= k < j && k < |s| ==> !IsLineTerminator(s[k])
  }

  /** A string the scan leaves alone up to its end: no `**` inside it and
      none formed with a following `*`. */
  predicate Inert(p: string)
  {
    NoPair(p) && (p == [] || p[|p| - 1] != '*')
  }

  /** The lazy body search of one match attempt: starting at j, the first
      position of a closing `**` that is reachable without crossing a line
      terminator, or None when the attempt fails. */
  function FindClose(s: string, j: nat): (r: Option<nat>)
    requires j <= |s|
    ensures r.Some? ==> j <= r.value && PairAt(s, r.value) && Clear(s, j, r.value)
    ensures r.Some? ==> forall k :: j <= k < r.value ==> !PairAt(s, k)
    ensures r.None? ==> forall k :: j <= k && PairAt(s, k) ==> !Clear(s, j, k)
    decreases |s| - j
  {
    if PairAt(s, j) then Some(j)
    else if j < |s| && !IsLineTerminator(s[j]) then FindClose(s, j + 1)
    else None
  }

  /** The global substitution of emphasis by `<strong>` markup over a whole
      line: where a match attempt at the scan position succeeds, its body is
      wrapped and the scan resumes behind the closing delimiter; elsewhere one
      character is kept and the scan moves on by one. */
  function Emphasize(s: string): string
    decreases |s|
  {
    if PairAt(s, 0) then
      match FindClose(s, 2)
      case Some(j) => "<strong>" + s[2..j] + "</strong>" + Emphasize(s[j + 2..])
      case None => [s[0]] + Emphasize(s[1..])
    else if s == [] then []
    else [s[0]] + Emphasize(s[1..])
  }

  /** Text without `**` is unchanged. */
  lemma {:induction false} EmphasizeIdentity(s: string)
    requires NoPair(s)
    ensures Emphasize(s) == s
    decreases |s|
  {
    if s != [] {
      assert !PairAt(s, 0);
      forall k ensures !PairAt(s[1..], k) {
        assert PairAt(s[1..], k) ==> PairAt(s, k + 1);
      }
      EmphasizeIdentity(s[1..]);
    }
  }

  /** An inert prefix is copied and the scan continues behind it unchanged. */
  lemma {:induction false} EmphasizePrefix(p: string, s: string)
    requires Inert(p)
    ensures Emphasize(p + s) == p + Emphasize(s)
    decreases |p|
  {
    if p != [] {
      InertStep(p, s);
      EmphasizePrefix(p[1..], s);
      Uncons(p, Emphasize(s));
    } else {
      assert p + s == s;
    }
  }

  lemma Uncons(p: string, x: string)
    requires p != []
    ensures [p[0]] + (p[1..] + x) == p + x
  {
    assert [p[0]] + p[1..] == p;
  }

  /** One step of the scan over an inert prefix: its first character is
      copied, and what remains of the prefix is still inert. */
  lemma InertStep(p: string, s: string)
    requires Inert(p) && p != []
    ensures Emphasize(p + s) == [p[0]] + Emphasize(p[1..] + s)
    ensures Inert(p[1..])
  {
    var ps := p + s;
    assert !PairAt(ps, 0) by {
      if |p| == 1 {
        assert ps[0] == p[0] && p[0] != '*';
      } else {
        assert !PairAt(p, 0);
      }
    }
    assert ps[1..] == p[1..] + s;
    forall k | 0 <= k < |p| - 1 ensures !PairAt(p[1..], k) {
      assert !PairAt(p, k + 1);
    }
  }

  /** At the start of a text: `**` + body + `**` is the shortest match when
      the body holds no `**`, no line terminator and does not end in `*`. */
  lemma EmphasizeMatchFirst(b: string, r: string)
    requires Inert(b) && Clear(b, 0, |b|)
    ensures Emphasize("**" + b + "**" + r) == "<strong>" + b + "</strong>" + Emphasize(r)
  {
    var s := "**" + b + "**" + r;
    var j := 2 + |b|;
    assert PairAt(s, 0) && PairAt(s, j);
    assert s[2..j] == b && s[j + 2..] == r;
    forall k | 2 <= k < j ensures !PairAt(s, k) && !IsLineTerminator(s[k]) {
      assert s[k] == b[k - 2];
      if k + 1 < j {
        assert s[k + 1] == b[k - 1];
        assert !PairAt(b, k - 2);
      }
    }
    assert Clear(s, 2, j);
    match FindClose(s, 2)
    case Some(c) => {
      if c != j {
        assert false;
      }
    }
    case None => {
      assert false;
    }
  }

  /** The leftmost, shortest, non-overlapping match: behind an inert prefix,
      the first `**`…`**` pair is replaced and the scan resumes after it. */
  lemma EmphasizeLeftmost(p: string, b: string, r: string)
    requires Inert(p)
    requires Inert(b) && Clear(b, 0, |b|)
    ensures Emphasize(p + "**" + b + "**" + r) == p + "<strong>" + b + "</strong>" + Emphasize(r)
  {
    var m := "**" + b + "**" + r;
    Regroup(p, m, b, r);
    EmphasizePrefix(p, m);
    EmphasizeMatchFirst(b, r);
  }

  lemma Regroup(p: string, m: string, b: string, r: string)
    requires m == "**" + b + "**" + r
    ensures p + "**" + b + "**" + r == p + m
    ensures forall x :: p + ("<strong>" + b + "</strong>" + x) == p + "<strong>" + b + "</strong>" + x
  {
  }

  /** At the start of a text, `**` with no later `**` stays literal. */
  lemma LoneDelimiter(t: string)
    requires NoPair(t) && (t == [] || t[0] != '*')
    ensures Emphasize("**" + t) == "**" + t
  {
    var s := "**" + t;
    forall k | 2 <= k < |s| ensures !PairAt(s, k) {
      assert !PairAt(t, k - 2);
    }
    assert FindClose(s, 2).None?;
    var u := s[1..];
    assert u == "*" + t && u[1..] == t;
    assert !PairAt(u, 0);
    EmphasizeIdentity(t);
  }

  /** A lone `**` with no closing partner stays literal. */
  lemma EmphasizeUnmatched(p: string, t: string)
    requires Inert(p)
    requires NoPair(t) && (t == [] || t[0] != '*')
    ensures Emphasize(p + "**" + t) == p + "**" + t
  {
    assert p + "**" + t == p + ("**" + t);
    EmphasizePrefix(p, "**" + t);
    LoneDelimiter(t);
  }

  /** A match attempt that fails, because every later `**` lies behind a line
      terminator, keeps only the first `*`; the scan then carries on from the
      second one, which may still open a later match. */
  lemma FailedAttempt(p: string, t: string)
    requires Inert(p)
    requires forall k :: PairAt(t, k) ==> !Clear(t, 0, k)
    ensures Emphasize(p + "**" + t) == p + "*" + Emphasize("*" + t)
  {
    var s := "**" + t;
    NoCloseBehindTerminators(t);
    assert s[1..] == "*" + t;
    assert Emphasize(s) == "*" + Emphasize("*" + t);
    assert p + "**" + t == p + s;
    EmphasizePrefix(p, s);
    assert p + ("*" + Emphasize("*" + t)) == p + "*" + Emphasize("*" + t);
  }

  /** When every `**` of t lies behind a line terminator, an attempt opened
      just before t finds no closing delimiter. */
  lemma NoCloseBehindTerminators(t: string)
    requires forall k :: PairAt(t, k) ==> !Clear(t, 0, k)
    ensures FindClose("**" + t, 2).None?
  {
    var s := "**" + t;
    if FindClose(s, 2).Some? {
      var j := FindClose(s, 2).value;
      assert PairAt(t, j - 2) by {
        assert s[j] == t[j - 2] && s[j + 1] == t[j - 1];
      }
      forall k | 0 <= k < j - 2 && k < |t| ensures !IsLineTerminator(t[k]) {
        assert t[k] == s[k + 2];
      }
      assert Clear(t, 0, j - 2);
      assert false;
    }
  }
}
