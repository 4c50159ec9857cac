/** Generic sequence helpers shared by every module: an option type, Python-style
    slicing (`s[:n]`), `str.split(sep)`, `sep.join(parts)`, `strip()` and list
    comprehension filters, each stated by what it returns. */
module Seqs {

  datatype Option<+T> = None | Some(value: T)

  /** `s[:n]` for a non-negative `n`: the first `n` elements, or all of them. */
  function Take<T>(s: seq<T>, n: nat): (r: seq<T>)
    ensures |r| == if n < |s| then n else |s|
    ensures r == s[..|r|]
  {
    if n < |s| then s[..n] else s
  }

  lemma TakeTake<T>(s: seq<T>, m: nat, n: nat)
    requires m <= n
    ensures Take(Take(s, n), m) == Take(s, m)
  {
  }

  /** `[x for x in s if keep(x)]` */
  function Filter<T>(s: seq<T>, keep: T -> bool): (r: seq<T>)
    ensures |r| <= |s|
    ensures forall x :: x in r ==> x in s && keep(x)
  {
    if |s| == 0 then []
    else if keep(s[0]) then [s[0]] + Filter(s[1..], keep)
    else Filter(s[1..], keep)
  }

  lemma {:induction false} FilterAllKept<T>(s: seq<T>, keep: T -> bool)
    requires forall i :: 0 <= i < |s| ==> keep(s[i])
    ensures Filter(s, keep) == s
  {
    if |s| > 0 {
      FilterAllKept(s[1..], keep);
    }
  }

  /** `[f(x) for x in s]` */
  function Map<T, U>(s: seq<T>, f: T -> U): (r: seq<U>)
    ensures |r| == |s|
    ensures forall i :: 0 <= i < |s| ==> r[i] == f(s[i])
  {
    seq(|s|, i requires 0 <= i < |s| => f(s[i]))
  }

  /** `s.split(sep)`: the pieces between separators, empty pieces included;
      always at least one piece. */
  function Split<T(==)>(s: seq<T>, sep: T): (parts: seq<seq<T>>)
    ensures |parts| >= 1
    ensures forall p :: p in parts ==> sep !in p
    decreases |s|
  {
    if |s| == 0 then [[]]
    else
      var rest := Split(s[1..], sep);
      if s[0] == sep then [[]] + rest
      else [[s[0]] + rest[0]] + rest[1..]
  }

  /** `sep.join(parts)` */
  function Join<T>(parts: seq<seq<T>>, sep: T): (s: seq<T>)
  {
    if |parts| == 0 then []
    else if |parts| == 1 then parts[0]
    else parts[0] + [sep] + Join(parts[1..], sep)
  }

  lemma {:induction false} JoinSnoc<T>(ps: seq<seq<T>>, x: seq<T>, sep: T)
    requires |ps| >= 1
    ensures Join(ps + [x], sep) == Join(ps, sep) + [sep] + x
  {
    if |ps| > 1 {
      JoinSnoc(ps[1..], x, sep);
      assert (ps + [x])[1..] == ps[1..] + [x];
    }
  }

  lemma {:induction false} SplitNoSep<T>(p: seq<T>, sep: T)
    requires sep !in p
    ensures Split(p, sep) == [p]
  {
    if |p| > 0 {
      SplitNoSep(p[1..], sep);
      assert [p[0]] + p[1..] == p;
    }
  }

  lemma {:induction false} SplitPieceThenSep<T>(p: seq<T>, sep: T, rest: seq<T>)
    requires sep !in p
    ensures Split(p + [sep] + rest, sep) == [p] + Split(rest, sep)
  {
    if |p| == 0 {
      assert p + [sep] + rest == [sep] + rest;
      assert ([sep] + rest)[1..] == rest;
    } else {
      SplitPieceThenSep(p[1..], sep, rest);
      assert (p + [sep] + rest)[1..] == p[1..] + [sep] + rest;
      assert [p[0]] + p[1..] == p;
    }
  }

  /** Splitting undoes joining, as long as no piece holds the separator. */
  lemma {:induction false} SplitJoin<T>(parts: seq<seq<T>>, sep: T)
    requires |parts| >= 1
    requires forall i :: 0 <= i < |parts| ==> sep !in parts[i]
    ensures Split(Join(parts, sep), sep) == parts
  {
    if |parts| == 1 {
      SplitNoSep(parts[0], sep);
    } else {
      SplitJoin(parts[1..], sep);
      SplitPieceThenSep(parts[0], sep, Join(parts[1..], sep));
      assert [parts[0]] + parts[1..] == parts;
    }
  }

  /** Joining undoes splitting: no element of the input is lost or changed. */
  lemma {:induction false} JoinSplit<T>(s: seq<T>, sep: T)
    ensures Join(Split(s, sep), sep) == s
  {
    if |s| > 0 {
      JoinSplit(s[1..], sep);
      var rest := Split(s[1..], sep);
      if s[0] != sep {
        assert Split(s, sep)[1..] == rest[1..];
        if |rest| > 1 {
          assert [rest[0]] + rest[1..] == rest;
          assert Join(rest, sep) == rest[0] + [sep] + Join(rest[1..], sep);
        }
      } else {
        assert Split(s, sep)[1..] == rest;
      }
    }
  }

  /** Drops the leading elements that satisfy `isWs`. */
  function TrimStart<T>(s: seq<T>, isWs: T -> bool): (r: seq<T>)
    ensures |r| <= |s| && r == s[|s| - |r|..]
    ensures r == [] || !isWs(r[0])
    ensures forall i :: 0 <= i < |s| - |r| ==> isWs(s[i])
  {
    if |s| > 0 && isWs(s[0]) then TrimStart(s[1..], isWs) else s
  }

  /** Drops the trailing elements that satisfy `isWs`. */
  function TrimEnd<T>(s: seq<T>, isWs: T -> bool): (r: seq<T>)
    ensures |r| <= |s| && r == s[..|r|]
    ensures r == [] || !isWs(r[|r| - 1])
    ensures forall i :: |r| <= i < |s| ==> isWs(s[i])
  {
    if |s| > 0 && isWs(s[|s| - 1]) then TrimEnd(s[..|s| - 1], isWs) else s
  }

  /** `s.strip()` with `isWs` as the whitespace test. */
  function Strip<T>(s: seq<T>, isWs: T -> bool): (r: seq<T>)
    ensures |r| <= |s|
    ensures r == [] || (!isWs(r[0]) && !isWs(r[|r| - 1]))
  {
    TrimEnd(TrimStart(s, isWs), isWs)
  }

  lemma StripUnchanged<T>(s: seq<T>, isWs: T -> bool)
    requires s == [] || (!isWs(s[0]) && !isWs(s[|s| - 1]))
    ensures Strip(s, isWs) == s
  {
  }

  predicate AllWs<T>(s: seq<T>, isWs: T -> bool)
  {
    forall i :: 0 <= i < |s| ==> isWs(s[i])
  }

  /** Trimming the front of `a + b` stays inside `a` when `a` or the start
      of `b` is not blank. */
  lemma {:induction false} TrimStartAppend<T>(a: seq<T>, b: seq<T>, isWs: T -> bool)
    requires !AllWs(a, isWs) || b == [] || !isWs(b[0])
    ensures TrimStart(a + b, isWs) == TrimStart(a, isWs) + b
    decreases |a|
  {
    if |a| == 0 {
      assert a + b == b;
    } else if isWs(a[0]) {
      assert (a + b)[1..] == a[1..] + b;
      assert !AllWs(a, isWs) ==> !AllWs(a[1..], isWs) by {
        if !AllWs(a, isWs) {
          var i :| 0 <= i < |a| && !isWs(a[i]);
          assert a[1..][i - 1] == a[i];
        }
      }
      TrimStartAppend(a[1..], b, isWs);
    }
  }

  /** Trimming the end of `a + b` stays inside `b` when `a` does not end blank. */
  lemma {:induction false} TrimEndPrepend<T>(a: seq<T>, b: seq<T>, isWs: T -> bool)
    requires a == [] || !isWs(a[|a| - 1])
    ensures TrimEnd(a + b, isWs) == a + TrimEnd(b, isWs)
    decreases |b|
  {
    if |b| == 0 {
      assert a + b == a;
    } else if isWs(b[|b| - 1]) {
      assert (a + b)[..|a + b| - 1] == a + b[..|b| - 1];
      TrimEndPrepend(a, b[..|b| - 1], isWs);
    }
  }

  lemma {:induction false} TrimStartAllWs<T>(s: seq<T>, isWs: T -> bool)
    requires AllWs(s, isWs)
    ensures TrimStart(s, isWs) == []
  {
  }

  /** A blank element at the end does not change the strip. */
  lemma {:induction false} StripSnocWs<T>(s: seq<T>, w: T, isWs: T -> bool)
    requires isWs(w)
    ensures Strip(s + [w], isWs) == Strip(s, isWs)
  {
    if AllWs(s, isWs) {
      TrimStartAllWs(s, isWs);
      assert AllWs(s + [w], isWs);
      TrimStartAllWs(s + [w], isWs);
    } else {
      TrimStartAppend(s, [w], isWs);
      var t := TrimStart(s, isWs);
      assert TrimStart(s + [w], isWs) == t + [w];
      assert (t + [w])[..|t + [w]| - 1] == t;
      assert TrimEnd(t + [w], isWs) == TrimEnd(t, isWs);
    }
  }

  /** The pieces of a joined text after stripping the whole text: the first
      loses its leading blanks, the last its trailing ones. */
  function StripEnds<T>(ps: seq<seq<T>>, isWs: T -> bool): (r: seq<seq<T>>)
    ensures |r| == |ps|
  {
    if |ps| == 0 then []
    else if |ps| == 1 then [Strip(ps[0], isWs)]
    else [TrimStart(ps[0], isWs)] + ps[1..|ps| - 1] + [TrimEnd(ps[|ps| - 1], isWs)]
  }

  lemma {:induction false} JoinCons<T>(x: seq<T>, ps: seq<seq<T>>, sep: T)
    requires |ps| >= 1
    ensures Join([x] + ps, sep) == x + ([sep] + Join(ps, sep))
  {
    var xs := [x] + ps;
    assert |xs| > 1 && xs[0] == x && xs[1..] == ps;
    assert Join(xs, sep) == x + [sep] + Join(ps, sep);
  }

  lemma {:induction false} TrimStartJoin<T>(ps: seq<seq<T>>, sep: T, isWs: T -> bool)
    requires |ps| >= 2 && !isWs(sep)
    ensures TrimStart(Join(ps, sep), isWs) == Join([TrimStart(ps[0], isWs)] + ps[1..], sep)
  {
    var tail := [sep] + Join(ps[1..], sep);
    assert [ps[0]] + ps[1..] == ps;
    JoinCons(ps[0], ps[1..], sep);
    TrimStartAppend(ps[0], tail, isWs);
    JoinCons(TrimStart(ps[0], isWs), ps[1..], sep);
  }

  lemma {:induction false} TrimEndJoin<T>(qs: seq<seq<T>>, sep: T, isWs: T -> bool)
    requires |qs| >= 2 && !isWs(sep)
    ensures TrimEnd(Join(qs, sep), isWs) == Join(qs[..|qs| - 1] + [TrimEnd(qs[|qs| - 1], isWs)], sep)
  {
    var init := qs[..|qs| - 1];
    assert init + [qs[|qs| - 1]] == qs;
    JoinSnoc(init, qs[|qs| - 1], sep);
    TrimEndPrepend(Join(init, sep) + [sep], qs[|qs| - 1], isWs);
    JoinSnoc(init, TrimEnd(qs[|qs| - 1], isWs), sep);
  }

  /** Stripping a joined text strips only the outer ends of its pieces. */
  lemma {:induction false} StripJoin<T>(ps: seq<seq<T>>, sep: T, isWs: T -> bool)
    requires |ps| >= 1 && !isWs(sep)
    ensures Strip(Join(ps, sep), isWs) == Join(StripEnds(ps, isWs), sep)
  {
    if |ps| == 1 {
      assert StripEnds(ps, isWs) == [Strip(ps[0], isWs)];
    } else {
      TrimStartJoin(ps, sep, isWs);
      TrimEndJoin([TrimStart(ps[0], isWs)] + ps[1..], sep, isWs);
      TrimmedEnds(ps, isWs);
    }
  }

  lemma {:induction false} TrimmedEnds<T>(ps: seq<seq<T>>, isWs: T -> bool)
    requires |ps| >= 2
    ensures var qs := [TrimStart(ps[0], isWs)] + ps[1..];
            qs[..|ps| - 1] + [TrimEnd(qs[|ps| - 1], isWs)] == StripEnds(ps, isWs)
  {
    var n := |ps|;
    var qs := [TrimStart(ps[0], isWs)] + ps[1..];
    assert qs[..n - 1] == [TrimStart(ps[0], isWs)] + ps[1..n - 1];
    assert qs[n - 1] == ps[n - 1];
  }

  /** A piece after stripping the joined text strips to what the original
      piece strips to, and holds no element the original did not. */
  lemma {:induction false} StripEndsPiece<T>(ps: seq<seq<T>>, i: nat, isWs: T -> bool)
    requires i < |ps|
    ensures Strip(StripEnds(ps, isWs)[i], isWs) == Strip(ps[i], isWs)
    ensures forall x :: x in StripEnds(ps, isWs)[i] ==> x in ps[i]
  {
    var n := |ps|;
    var q := StripEnds(ps, isWs)[i];
    if n == 1 {
      var t := TrimStart(ps[0], isWs);
      assert q == TrimEnd(t, isWs) && q == t[..|q|] && t == ps[0][|ps[0]| - |t|..];
      StripUnchanged(q, isWs);
    } else if i == 0 {
      assert q == TrimStart(ps[0], isWs);
      assert q == ps[0][|ps[0]| - |q|..];
      StripTrimStart(ps[0], isWs);
    } else if i == n - 1 {
      assert q == TrimEnd(ps[i], isWs);
      assert q == ps[i][..|q|];
      StripTrimEnd(ps[i], isWs);
    } else {
      assert q == ps[1..n - 1][i - 1] == ps[i];
    }
  }

  /** Stripping after trimming the front is stripping. */
  lemma {:induction false} StripTrimStart<T>(s: seq<T>, isWs: T -> bool)
    ensures Strip(TrimStart(s, isWs), isWs) == Strip(s, isWs)
  {
    var t := TrimStart(s, isWs);
    assert TrimStart(t, isWs) == t;
  }

  /** Stripping after trimming the end is stripping. */
  lemma {:induction false} StripTrimEnd<T>(s: seq<T>, isWs: T -> bool)
    ensures Strip(TrimEnd(s, isWs), isWs) == Strip(s, isWs)
    decreases |s|
  {
    if |s| > 0 && isWs(s[|s| - 1]) {
      var init := s[..|s| - 1];
      assert TrimEnd(s, isWs) == TrimEnd(init, isWs);
      StripTrimEnd(init, isWs);
      assert s == init + [s[|s| - 1]];
      StripSnocWs(init, s[|s| - 1], isWs);
    } else {
      assert TrimEnd(s, isWs) == s;
    }
  }

  /** Concatenation of a list of lists. */
  function Concat<T>(ss: seq<seq<T>>): (r: seq<T>)
  {
    if |ss| == 0 then [] else Concat(ss[..|ss| - 1]) + ss[|ss| - 1]
  }

  lemma {:induction false} ConcatAppend<T>(ss: seq<seq<T>>, ts: seq<seq<T>>)
    ensures Concat(ss + ts) == Concat(ss) + Concat(ts)
    decreases |ts|
  {
    if |ts| == 0 {
      assert ss + ts == ss;
    } else {
      var init := ts[..|ts| - 1];
      var last := ts[|ts| - 1];
      ConcatAppend(ss, init);
      assert (ss + ts)[..|ss + ts| - 1] == ss + init;
      assert (ss + ts)[|ss + ts| - 1] == last;
      assert Concat(ss + ts) == Concat(ss + init) + last;
      assert Concat(ts) == Concat(init) + last;
      assert Concat(ss) + Concat(init) + last == Concat(ss) + (Concat(init) + last);
    }
  }

  /** `x` occurs in `s` as a contiguous run. */
  predicate IsInfix<T(==)>(x: seq<T>, s: seq<T>)
  {
    exists p :: 0 <= p <= |s| && x <= s[p..]
  }

  /** A run of `s` stays a run of `s` with text added around it. */
  lemma {:induction false} InfixExtend<T>(x: seq<T>, a: seq<T>, s: seq<T>, b: seq<T>)
    requires IsInfix(x, s)
    ensures IsInfix(x, a + s + b)
  {
    var p :| 0 <= p <= |s| && x <= s[p..];
    assert (a + s + b)[|a| + p..] == s[p..] + b;
  }

  /** One more piece of a prefix, as a loop adds it. */
  lemma ConcatPrefixStep<T>(ss: seq<seq<T>>, i: nat)
    requires i < |ss|
    ensures Concat(ss[..i + 1]) == Concat(ss[..i]) + ss[i]
  {
    assert ss[..i + 1][..i] == ss[..i];
  }

  lemma {:induction false} ConcatSplitAt<T>(ss: seq<seq<T>>, i: nat)
    requires i < |ss|
    ensures Concat(ss) == Concat(ss[..i]) + ss[i] + Concat(ss[i + 1..])
  {
    var front := ss[..i + 1];
    assert ss == front + ss[i + 1..];
    ConcatAppend(front, ss[i + 1..]);
    assert front[..i] == ss[..i];
    assert Concat(front) == Concat(front[..i]) + front[i];
  }

  /** Every piece of a concatenation occurs in it. */
  lemma {:induction false} PieceOfConcat<T>(ss: seq<seq<T>>, i: nat)
    requires i < |ss|
    ensures IsInfix(ss[i], Concat(ss))
  {
    ConcatSplitAt(ss, i);
    var pre, post := Concat(ss[..i]), Concat(ss[i + 1..]);
    assert (pre + ss[i] + post)[|pre|..] == ss[i] + post;
  }

  function Min(a: int, b: int): int { if a < b then a else b }
}
