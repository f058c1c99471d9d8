/** Small value types and the Python string operations the generators rely on. */
module Common {

  datatype Option<+T> = None | Some(value: T)

  datatype Result<+T, +E> = Ok(value: T) | Err(error: E)

  /** A value bound to a `?` parameter or stored in a column. */
  datatype Value = VStr(s: string) | VInt(i: int) | VNull

  /** SQL `=`: a comparison with NULL is never true. */
  predicate SqlEq(a: Value, b: Value) {
    a != VNull && b != VNull && a == b
  }

  /** The column value of an optional string: Python `None` is bound as NULL. */
  function OptValue(o: Option<string>): Value {
    if o.Some? then VStr(o.value) else VNull
  }

  /** Python truthiness of an optional string argument: `None` and `""` are both false. */
  predicate Truthy(o: Option<string>) {
    o.Some? && o.value != ""
  }

  /** `sep.join(parts)`. */
  function Join(sep: string, parts: seq<string>): (r: string)
    decreases |parts|
  {
    if |parts| == 0 then ""
    else if |parts| == 1 then parts[0]
    else parts[0] + sep + Join(sep, parts[1..])
  }

  /** `s.startswith(p)`. */
  predicate StartsWith(s: string, p: string) {
    |p| <= |s| && s[..|p|] == p
  }

  /** The Python slice `s[n:]`, which is empty when `n` is past the end. */
  function Drop(s: string, n: nat): (r: string)
    ensures |r| == if n <= |s| then |s| - n else 0
    ensures n <= |s| ==> s == s[..n] + r
  {
    if n <= |s| then s[n..] else ""
  }

  /** The Python slice `s[:n]`. */
  function Take(s: string, n: nat): (r: string)
    ensures |r| <= n && |r| <= |s|
    ensures |s| <= n ==> r == s
    ensures n <= |s| ==> |r| == n
    ensures StartsWith(s, r)
  {
    if n <= |s| then s[..n] else s
  }

  /** `s.replace(c, rep)` for a one-character pattern. */
  function ReplaceChar(s: string, c: char, rep: string): (r: string)
    decreases |s|
  {
    if s == [] then []
    else (if s[0] == c then rep else [s[0]]) + ReplaceChar(s[1..], c, rep)
  }

  /** `s.split(c)` for a one-character separator. */
  function Split(s: string, c: char): (r: seq<string>)
    ensures |r| >= 1
    decreases |s|
  {
    if s == [] then [""]
    else if s[0] == c then [""] + Split(s[1..], c)
    else var t := Split(s[1..], c); [[s[0]] + t[0]] + t[1..]
  }

  /** The quoting rule shared by every DDL builder: a name is double-quoted iff it contains a space. */
  function QuoteIfSpace(name: string): (r: string)
  {
    if ' ' in name then "\"" + name + "\"" else name
  }

  /** A name with a suffix, double-quoted iff the name contains a space: the column-definition form of every DDL builder. */
  function Quoted(name: string, suffix: string): string {
    var q := if ' ' in name then "\"" else "";
    q + name + suffix + q
  }

  /** A suffix without spaces leaves the quoting rule to the name alone. */
  lemma QuotedIsQuoteIfSpace(name: string, suffix: string)
    requires ' ' !in suffix
    ensures Quoted(name, suffix) == QuoteIfSpace(name + suffix)
  {
    assert ' ' in name + suffix <==> ' ' in name by {
      if ' ' in name {
        var i :| 0 <= i < |name| && name[i] == ' ';
        assert (name + suffix)[i] == ' ';
      }
    }
  }

  /**
   * Upper-casing of the ASCII letters `a`-`z`; every other character is kept.
   * The engine's `upper` also maps non-ASCII letters, which this does not.
   */
  function UpperChar(c: char): char {
    if 'a' <= c <= 'z' then (c as int - 32) as char else c
  }

  function Upper(s: string): (r: string)
    ensures |r| == |s|
    ensures forall i :: 0 <= i < |s| ==> r[i] == UpperChar(s[i])
    decreases |s|
  {
    if s == [] then [] else [UpperChar(s[0])] + Upper(s[1..])
  }

  function DigitChar(d: nat): char
    requires d < 10
  {
    ['0','1','2','3','4','5','6','7','8','9'][d]
  }

  /** Decimal rendering of a natural number, as Python's `str(n)`. */
  function NatToString(n: nat): (r: string)
    ensures |r| >= 1
    ensures forall i :: 0 <= i < |r| ==> '0' <= r[i] <= '9'
    decreases n
  {
    if n < 10 then [DigitChar(n)] else NatToString(n / 10) + [DigitChar(n % 10)]
  }

  /** Python's `str(i)` for any integer. */
  function IntToString(i: int): string {
    if i < 0 then "-" + NatToString(-i) else NatToString(i)
  }

  /** The first occurrence of `x` in `s` wins; later duplicates are dropped. */
  function Dedup(s: seq<string>): (r: seq<string>)
    ensures forall x :: x in r <==> x in s
    ensures forall i, j :: 0 <= i < j < |r| ==> r[i] != r[j]
    ensures |r| <= |s|
    decreases |s|
  {
    if s == [] then []
    else
      var t := Dedup(s[..|s| - 1]);
      if s[|s| - 1] in t then t else t + [s[|s| - 1]]
  }

  // ---------------------------------------------------------------------------
  // Lemmas about the string operations
  // ---------------------------------------------------------------------------

  /** Splitting a dot-free head off a joined pair gives the head back. */
  lemma {:induction false} SplitHead(a: string, b: string, c: char)
    requires c !in a
    ensures Split(a + [c] + b, c) == [a] + Split(b, c)
    decreases |a|
  {
    if a == [] {
      assert [c] + b == [c] + b;
      assert ([c] + b)[1..] == b;
    } else {
      SplitHead(a[1..], b, c);
      assert (a + [c] + b)[1..] == a[1..] + [c] + b;
      assert [a[0]] + a[1..] == a;
    }
  }

  /** A string without the separator splits into itself alone. */
  lemma {:induction false} SplitNoSep(a: string, c: char)
    requires c !in a
    ensures Split(a, c) == [a]
    decreases |a|
  {
    if a != [] {
      SplitNoSep(a[1..], c);
      assert [a[0]] + a[1..] == a;
    }
  }

  /** A string holding the separator splits into at least two parts. */
  lemma {:induction false} SplitHasTwo(s: string, c: char)
    requires c in s
    ensures |Split(s, c)| >= 2
    decreases |s|
  {
    if s[0] != c {
      assert c in s[1..] by {
        var i :| 0 <= i < |s| && s[i] == c;
        assert s[1..][i - 1] == c;
      }
      SplitHasTwo(s[1..], c);
    }
  }

  /** `sep.join(s.split(sep)) == s`: Split and Join are inverse. */
  lemma {:induction false} JoinSplit(s: string, c: char)
    ensures Join([c], Split(s, c)) == s
    decreases |s|
  {
    if s == [] {
    } else if s[0] == c {
      JoinSplit(s[1..], c);
      var t := Split(s[1..], c);
      assert Split(s, c) == [""] + t;
      assert Join([c], [""] + t) == "" + [c] + Join([c], t) by {
        assert ([""] + t)[1..] == t;
      }
      assert [s[0]] + s[1..] == s;
    } else {
      JoinSplit(s[1..], c);
      var t := Split(s[1..], c);
      var r := [[s[0]] + t[0]] + t[1..];
      assert Split(s, c) == r;
      if |t| == 1 {
        assert Join([c], r) == [s[0]] + t[0];
        assert Join([c], t) == t[0];
      } else {
        assert r[1..] == t[1..];
        assert Join([c], t) == t[0] + [c] + Join([c], t[1..]);
        assert Join([c], r) == [s[0]] + t[0] + [c] + Join([c], t[1..]);
      }
      assert [s[0]] + s[1..] == s;
    }
  }

  /** A dot-free head makes `a + "." + b` injective: the first separator fixes the split point. */
  lemma {:induction false} JoinPairInjective(a: string, b: string, a': string, b': string, c: char)
    requires c !in a && c !in a'
    requires a + [c] + b == a' + [c] + b'
    ensures a == a' && b == b'
  {
    SplitHead(a, b, c);
    SplitHead(a', b', c);
    var s := a + [c] + b;
    assert Split(s, c)[0] == a;
    assert Split(s, c)[0] == a';
    assert |a| == |a'|;
    assert b == s[|a| + 1..];
    assert b' == s[|a'| + 1..];
  }

  /** Upper-casing erases the difference between letters that differ only in case. */
  lemma UpperCaseInsensitive(s: string, t: string)
    requires |s| == |t|
    requires forall i :: 0 <= i < |s| ==> UpperChar(s[i]) == UpperChar(t[i])
    ensures Upper(s) == Upper(t)
  {
  }

  // ---------------------------------------------------------------------------
  // Sequence algebra, stated once for the proofs that need it
  // ---------------------------------------------------------------------------

  lemma ConcatAssoc<T>(p: seq<T>, q: seq<T>, r: seq<T>)
    ensures (p + q) + r == p + (q + r)
  {
  }

  /** A non-empty tail splits off its last element. */
  lemma ConcatSnoc<T>(a: seq<T>, b: seq<T>)
    requires b != []
    ensures b == b[..|b| - 1] + [b[|b| - 1]]
    ensures a + b == (a + b[..|b| - 1]) + [b[|b| - 1]]
  {
    assert b == b[..|b| - 1] + [b[|b| - 1]];
  }
}
