/**
 * Python's string semantics that the core relies on: the ordering used by
 * `sorted` on str, `', '.join`, and `repr` of a str (which is what a
 * KeyError prints).
 */
module Text {

  /** Python's `a < b` on str: code points compared left to right, a proper prefix first. */
  predicate Below(a: string, b: string)
  {
    if |a| == 0 then |b| > 0
    else if |b| == 0 then false
    else a[0] < b[0] || (a[0] == b[0] && Below(a[1..], b[1..]))
  }

  lemma {:induction false} BelowIrreflexive(a: string)
    ensures !Below(a, a)
  {
    if |a| > 0 {
      BelowIrreflexive(a[1..]);
    }
  }

  lemma {:induction false} BelowTransitive(a: string, b: string, c: string)
    requires Below(a, b) && Below(b, c)
    ensures Below(a, c)
  {
    if |a| > 0 && a[0] == b[0] && b[0] == c[0] {
      BelowTransitive(a[1..], b[1..], c[1..]);
    }
  }

  lemma {:induction false} BelowTotal(a: string, b: string)
    ensures a == b || Below(a, b) || Below(b, a)
  {
    if |a| > 0 && |b| > 0 && a[0] == b[0] {
      BelowTotal(a[1..], b[1..]);
      if a[1..] == b[1..] {
        assert a == [a[0]] + a[1..] && b == [b[0]] + b[1..];
      }
    }
  }

  /** `m` is the smallest element of `s`. */
  predicate IsLeast(m: string, s: set<string>)
  {
    m in s && forall x :: x in s ==> x == m || Below(m, x)
  }

  lemma {:induction false} LeastExists(s: set<string>)
    requires s != {}
    ensures exists m :: IsLeast(m, s)
  {
    var x :| x in s;
    if s == {x} {
      assert IsLeast(x, s);
    } else {
      LeastExists(s - {x});
      var m :| IsLeast(m, s - {x});
      BelowTotal(x, m);
      if Below(x, m) {
        forall y | y in s
          ensures y == x || Below(x, y)
        {
          if y != x && y != m {
            BelowTransitive(x, m, y);
          }
        }
        assert IsLeast(x, s);
      } else {
        assert IsLeast(m, s);
      }
    }
  }

  lemma LeastUnique(s: set<string>)
    ensures forall m, m' :: IsLeast(m, s) && IsLeast(m', s) ==> m == m'
  {
    forall m, m' | IsLeast(m, s) && IsLeast(m', s)
      ensures m == m'
    {
      if m != m' {
        BelowTransitive(m, m', m);
        BelowIrreflexive(m);
      }
    }
  }

  /** The smallest element of a non-empty set of names. */
  function Least(s: set<string>): (m: string)
    requires s != {}
    ensures m in s
    ensures forall x :: x in s ==> x == m || Below(m, x)
  {
    LeastExists(s);
    LeastUnique(s);
    var m :| IsLeast(m, s);
    m
  }

  ghost predicate StrictlyAscending(r: seq<string>)
  {
    forall i, j :: 0 <= i < j < |r| ==> Below(r[i], r[j])
  }

  /** Python's `sorted(names)` for a set of str. */
  function Sorted(s: set<string>): (r: seq<string>)
    ensures |r| == |s|
    ensures forall x :: x in r <==> x in s
    ensures StrictlyAscending(r)
    decreases |s|
  {
    if s == {} then []
    else
      var m := Least(s);
      [m] + Sorted(s - {m})
  }

  /** A set has exactly one ascending listing: `sorted` depends on the set alone. */
  lemma {:induction false} SortedIsUnique(s: set<string>, t: seq<string>)
    requires StrictlyAscending(t)
    requires forall x :: x in t <==> x in s
    ensures t == Sorted(s)
    decreases |t|
  {
    if t == [] {
      assert s == {} by {
        forall x | x in s ensures false { }
      }
    } else {
      assert t[0] in s;
      var m := Least(s);
      assert m in t;
      assert |t| > 0;
      assert IsLeast(t[0], s) by {
        forall x | x in s
          ensures x == t[0] || Below(t[0], x)
        {
          var k :| 0 <= k < |t| && t[k] == x;
          if k > 0 { assert Below(t[0], t[k]); }
        }
      }
      assert IsLeast(m, s);
      LeastUnique(s);
      forall x
        ensures x in t[1..] <==> x in s - {m}
      {
        if x in t[1..] {
          var k :| 1 <= k < |t| && t[k] == x;
          assert Below(t[0], t[k]);
          BelowIrreflexive(x);
        }
        if x in s - {m} {
          var k :| 0 <= k < |t| && t[k] == x;
          assert k != 0;
          assert t[1..][k - 1] == x;
        }
      }
      SortedIsUnique(s - {m}, t[1..]);
      assert t == [t[0]] + t[1..];
    }
  }

  /** Python's `sep.join(parts)`. */
  function Join(parts: seq<string>, sep: string): string
  {
    if |parts| == 0 then ""
    else if |parts| == 1 then parts[0]
    else parts[0] + sep + Join(parts[1..], sep)
  }

  /** Python's `repr` of a str: single quotes unless the text holds a single quote and no double one. */
  function Repr(s: string): (r: string)
    ensures |r| >= 2 && r[0] == r[|r| - 1] && r[0] in {'\'', '"'}
  {
    var q := if '\'' in s && '"' !in s then '"' else '\'';
    [q] + Escape(s, q) + [q]
  }

  function Escape(s: string, q: char): string
  {
    if s == [] then [] else EscapeChar(s[0], q) + Escape(s[1..], q)
  }

  function EscapeChar(c: char, q: char): string
  {
    if c == q || c == '\\' then ['\\', c]
    else if c == '\n' then "\\n"
    else if c == '\r' then "\\r"
    else if c == '\t' then "\\t"
    else [c]
  }

  /** A character `repr` writes as itself whichever quote it picks. */
  predicate Plain(c: char)
  {
    c != '\'' && c != '"' && c != '\\' && c != '\n' && c != '\r' && c != '\t'
  }

  lemma {:induction false} EscapePlain(s: string, q: char)
    requires forall i :: 0 <= i < |s| ==> Plain(s[i])
    requires q == '\'' || q == '"'
    ensures Escape(s, q) == s
  {
    if s != [] {
      EscapePlain(s[1..], q);
      assert s == [s[0]] + s[1..];
    }
  }

  /** A name made of plain characters prints as itself between single quotes. */
  lemma ReprOfPlain(s: string)
    requires forall i :: 0 <= i < |s| ==> Plain(s[i])
    ensures Repr(s) == "'" + s + "'"
  {
    assert forall i :: 0 <= i < |s| ==> s[i] != '\'';
    EscapePlain(s, '\'');
  }
}
