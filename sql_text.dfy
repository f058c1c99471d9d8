/**
 * How a value spliced between single quotes reads once it is part of the
 * statement text. SQL writes a quote inside a string literal as two quotes,
 * so the literal ends at the first quote that is not doubled. The model
 * recognises one sure way the text then stops parsing: that quote is
 * followed at once by a word that cannot come after a literal. In these
 * statements each literal is an operand of a `WHERE` comparison or a member
 * of a `VALUES` row, where no alias may follow it, so such a word is a
 * syntax error. Every other text is left to the engine's oracle.
 */
module SqlText {
  import opened Common
  import opened PyText
  import opened Statements

  predicate NoQuote(s: string) { '\'' !in s }

  /** Letters, digits and `_`: the characters an SQL word is made of. */
  predicate WordChar(c: char) {
    ('a' <= c <= 'z') || ('A' <= c <= 'Z') || ('0' <= c <= '9') || c == '_'
  }

  /** Where the word starting at `j` ends. */
  function WordEnd(v: string, j: nat): (e: nat)
    requires j <= |v|
    ensures j <= e <= |v|
    ensures forall x :: j <= x < e ==> WordChar(v[x])
    ensures e < |v| ==> !WordChar(v[e])
    decreases |v| - j
  {
    if j == |v| || !WordChar(v[j]) then j else WordEnd(v, j + 1)
  }

  /** The upper-case words that may follow an expression: operators, clause keywords, join and ordering words. */
  const FollowWordCount := 57

  function FollowWord(i: nat): string {
    match i
    case 0 => "AND"
    case 1 => "OR"
    case 2 => "NOT"
    case 3 => "IS"
    case 4 => "ISNULL"
    case 5 => "NOTNULL"
    case 6 => "IN"
    case 7 => "LIKE"
    case 8 => "ILIKE"
    case 9 => "GLOB"
    case 10 => "SIMILAR"
    case 11 => "BETWEEN"
    case 12 => "COLLATE"
    case 13 => "AS"
    case 14 => "AT"
    case 15 => "ESCAPE"
    case 16 => "UESCAPE"
    case 17 => "ORDER"
    case 18 => "GROUP"
    case 19 => "HAVING"
    case 20 => "LIMIT"
    case 21 => "OFFSET"
    case 22 => "UNION"
    case 23 => "EXCEPT"
    case 24 => "INTERSECT"
    case 25 => "WINDOW"
    case 26 => "QUALIFY"
    case 27 => "FROM"
    case 28 => "WHERE"
    case 29 => "RETURNING"
    case 30 => "ON"
    case 31 => "USING"
    case 32 => "JOIN"
    case 33 => "LEFT"
    case 34 => "RIGHT"
    case 35 => "INNER"
    case 36 => "OUTER"
    case 37 => "FULL"
    case 38 => "CROSS"
    case 39 => "NATURAL"
    case 40 => "POSITIONAL"
    case 41 => "ANTI"
    case 42 => "SEMI"
    case 43 => "ASOF"
    case 44 => "ASC"
    case 45 => "DESC"
    case 46 => "NULLS"
    case 47 => "FILTER"
    case 48 => "OVER"
    case 49 => "WITHIN"
    case 50 => "THEN"
    case 51 => "ELSE"
    case 52 => "END"
    case 53 => "WHEN"
    case 54 => "FOR"
    case 55 => "TO"
    case 56 => "OPERATOR"
    case _ => ""
  }

  /** `u` is one of the follow words from the `i`-th on. */
  predicate IsFollowWordFrom(u: string, i: nat)
    decreases FollowWordCount - i
  {
    i < FollowWordCount && (u == FollowWord(i) || IsFollowWordFrom(u, i + 1))
  }

  /** A word that may follow a literal; keywords are not case sensitive. */
  predicate MayFollowLiteral(w: string) {
    IsFollowWordFrom(Upper(w), 0)
  }

  /** The text reads, inside a literal, as plain characters and doubled quotes only. */
  predicate Paired(u: string)
    decreases |u|
  {
    if u == [] then true
    else if u[0] != '\'' then Paired(u[1..])
    else |u| >= 2 && u[1] == '\'' && Paired(u[2..])
  }

  /** The quote at `k` ends a literal and a word that cannot follow a literal comes right after. */
  predicate ClosesAt(v: string, k: nat) {
    && k + 1 < |v|
    && v[k] == '\''
    && WordChar(v[k + 1])
    && !MayFollowLiteral(v[k + 1..WordEnd(v, k + 1)])
  }

  /**
   * Spliced between quotes, `v` closes the literal at `k` (all before it is
   * paired, and the quote at `k` is not doubled) and a word that cannot follow
   * a literal comes right after.
   */
  predicate BreaksAt(v: string, k: nat) {
    ClosesAt(v, k) && Paired(v[..k])
  }

  /**
   * `v`, read from `i` on as the inside of a literal, the way the SQL lexer
   * reads it: a doubled quote stands for a quote, the first quote that is not
   * doubled ends the literal, and the statement breaks when a word that cannot
   * follow a literal comes right after.
   */
  predicate BreaksFrom(v: string, i: nat)
    decreases |v| - i
  {
    && i < |v|
    && if v[i] != '\'' then BreaksFrom(v, i + 1)
       else if i + 1 < |v| && v[i + 1] == '\'' then BreaksFrom(v, i + 2)
       else i + 1 < |v| && WordChar(v[i + 1]) && !MayFollowLiteral(v[i + 1..WordEnd(v, i + 1)])
  }

  /** A value that, spliced between quotes, makes the statement fail to parse. */
  predicate Breaks(v: string) {
    BreaksFrom(v, 0)
  }

  /** The lexer reaches a closing quote at `k` from any `i` before it that leaves a paired text in between. */
  lemma {:induction false} FromPaired(v: string, i: nat, k: nat)
    requires i <= k && ClosesAt(v, k) && Paired(v[i..k])
    ensures BreaksFrom(v, i)
    decreases k - i
  {
    if i < k {
      var u := v[i..k];
      assert u[0] == v[i];
      if v[i] != '\'' {
        assert u[1..] == v[i + 1..k];
        FromPaired(v, i + 1, k);
      } else {
        assert u[1] == v[i + 1] && u[2..] == v[i + 2..k];
        FromPaired(v, i + 2, k);
      }
    }
  }

  /** Where the lexer closes the literal: a paired text lies before it. */
  lemma {:induction false} ScanWitness(v: string, i: nat) returns (k: nat)
    requires BreaksFrom(v, i)
    ensures i <= k && ClosesAt(v, k) && Paired(v[i..k])
    decreases |v| - i
  {
    if v[i] != '\'' {
      k := ScanWitness(v, i + 1);
      var u := v[i..k];
      assert u[0] == v[i] && u[1..] == v[i + 1..k];
    } else if i + 1 < |v| && v[i + 1] == '\'' {
      k := ScanWitness(v, i + 2);
      var u := v[i..k];
      assert u[0] == v[i] && u[1] == v[i + 1] && u[2..] == v[i + 2..k];
    } else {
      k := i;
      assert v[i..k] == [];
    }
  }

  /** The lexer's reading agrees with the declarative one: `v` breaks exactly when some quote in it is a breaking one. */
  lemma BreaksExactly(v: string)
    ensures Breaks(v) <==> exists k: nat :: BreaksAt(v, k)
  {
    if Breaks(v) {
      var k := ScanWitness(v, 0);
      assert v[0..k] == v[..k];
      assert BreaksAt(v, k);
    }
    if exists k: nat :: BreaksAt(v, k) {
      var k: nat :| BreaksAt(v, k);
      assert v[0..k] == v[..k];
      FromPaired(v, 0, k);
    }
  }

  // ---------------------------------------------------------------------------
  // Building and taking apart a breaking value
  // ---------------------------------------------------------------------------

  /** What follows a word: the end of the text or a character that is not part of a word. */
  predicate EndsWord(t: string) {
    t == [] || !WordChar(t[0])
  }

  /** A text of word characters only. */
  predicate IsWord(w: string) {
    w != [] && forall i :: 0 <= i < |w| ==> WordChar(w[i])
  }

  lemma {:induction false} NoQuotePaired(u: string)
    requires NoQuote(u)
    ensures Paired(u)
    decreases |u|
  {
    if u != [] {
      assert u[0] in u;
      assert forall c :: c in u[1..] ==> c in u;
      NoQuotePaired(u[1..]);
    }
  }

  /** Paired texts concatenate. */
  lemma {:induction false} PairedConcat(a: string, b: string)
    requires Paired(a) && Paired(b)
    ensures Paired(a + b)
    decreases |a|
  {
    if a != [] {
      assert (a + b)[0] == a[0];
      if a[0] != '\'' {
        PairedConcat(a[1..], b);
        assert (a + b)[1..] == a[1..] + b;
      } else {
        assert (a + b)[1] == a[1];
        PairedConcat(a[2..], b);
        assert (a + b)[2..] == a[2..] + b;
      }
    } else {
      assert a + b == b;
    }
  }

  /** A text that keeps a lone quote at its end is not paired. */
  lemma {:induction false} LoneQuoteUnpaired(u: string)
    requires NoQuote(u)
    ensures !Paired(u + "'")
    decreases |u|
  {
    if u != [] {
      assert u[0] in u;
      assert forall c :: c in u[1..] ==> c in u;
      LoneQuoteUnpaired(u[1..]);
      assert (u + "'")[1..] == u[1..] + "'";
    }
  }

  lemma {:induction false} WordEndAt(v: string, j: nat, e: nat)
    requires j <= e <= |v|
    requires forall x :: j <= x < e ==> WordChar(v[x])
    requires e == |v| || !WordChar(v[e])
    ensures WordEnd(v, j) == e
    decreases e - j
  {
    if j < e {
      WordEndAt(v, j + 1, e);
    }
  }

  /** Where the parts of a quote followed by a word sit in the text. */
  lemma Layout(p: string, w: string, t: string)
    requires IsWord(w) && EndsWord(t)
    ensures var v := p + "'" + w + t;
      && |v| > |p| + 1 && v[..|p|] == p && v[|p|] == '\'' && WordChar(v[|p| + 1])
      && WordEnd(v, |p| + 1) == |p| + 1 + |w| && v[|p| + 1..|p| + 1 + |w|] == w
  {
    var v := p + "'" + w + t;
    var k := |p|;
    var e := k + 1 + |w|;
    assert v[..k] == p;
    assert v[k + 1..e] == w;
    forall x | k + 1 <= x < e
      ensures WordChar(v[x])
    {
      assert v[x] == w[x - k - 1];
    }
    WordEndAt(v, k + 1, e);
  }

  /** A paired text, a quote, a word that cannot follow a literal and then no further word character: it breaks. */
  lemma Assemble(p: string, w: string, t: string)
    requires Paired(p) && IsWord(w) && !MayFollowLiteral(w) && EndsWord(t)
    ensures BreaksAt(p + "'" + w + t, |p|)
    ensures Breaks(p + "'" + w + t)
  {
    Layout(p, w, t);
    var v := p + "'" + w + t;
    assert Paired(v[..|p|]);
    assert !MayFollowLiteral(v[|p| + 1..WordEnd(v, |p| + 1)]);
    assert BreaksAt(v, |p|);
    assert v[0..|p|] == v[..|p|];
    FromPaired(v, 0, |p|);
  }

  lemma SplitAtQuote(v: string, k: nat, e: nat)
    requires k < e <= |v| && v[k] == '\''
    ensures v == v[..k] + "'" + v[k + 1..e] + v[e..]
  {
    assert v == v[..k] + [v[k]] + v[k + 1..e] + v[e..];
  }

  /** A breaking value taken apart at its breaking quote. */
  lemma Disassemble(v: string, k: nat)
    requires BreaksAt(v, k)
    ensures var e := WordEnd(v, k + 1);
      && v == v[..k] + "'" + v[k + 1..e] + v[e..]
      && Paired(v[..k]) && IsWord(v[k + 1..e]) && !MayFollowLiteral(v[k + 1..e]) && EndsWord(v[e..])
  {
    var e := WordEnd(v, k + 1);
    SplitAtQuote(v, k, e);
    WordSlice(v, k + 1, e);
  }

  lemma WordSlice(v: string, j: nat, e: nat)
    requires j < |v| && e == WordEnd(v, j) && j < e
    ensures IsWord(v[j..e]) && EndsWord(v[e..])
  {
    assert forall i :: 0 <= i < e - j ==> v[j..e][i] == v[j + i];
  }

  // ---------------------------------------------------------------------------
  // The renderings the legacy flow splices
  // ---------------------------------------------------------------------------

  lemma {:induction false} JsonBodyConcat(a: string, b: string)
    ensures JsonBody(a + b) == JsonBody(a) + JsonBody(b)
    decreases |a|
  {
    if a != [] {
      assert (a + b)[0] == a[0] && (a + b)[1..] == a[1..] + b;
      JsonBodyConcat(a[1..], b);
    } else {
      assert a + b == b;
    }
  }

  /** `sep.join(parts)` starts with the first part. */
  lemma {:induction false} JoinStartsWithFirst(sep: string, parts: seq<string>)
    requires parts != []
    ensures StartsWith(Join(sep, parts), parts[0])
  {
    if |parts| > 1 {
      assert Join(sep, parts) == parts[0] + (sep + Join(sep, parts[1..]));
    }
  }

  lemma PrefixInside(a: string, j: string, b: string, x: string)
    requires StartsWith(j, x)
    ensures StartsWith(a + j + b, a + x)
  {
    var s := a + j + b;
    forall i | 0 <= i < |a| + |x|
      ensures s[i] == (a + x)[i]
    {
      if i >= |a| {
        assert s[i] == j[i - |a|] == j[..|x|][i - |a|];
      }
    }
    assert s[..|a| + |x|] == a + x;
  }

  /** The JSON list of strings starts with `[` and then the first string as JSON. */
  lemma JsonListStartsWithFirst(ms: seq<string>)
    requires ms != []
    ensures StartsWith(JsonStringList(ms), "[" + JsonString(ms[0]))
  {
    var js := JsonStrings(ms);
    JoinStartsWithFirst(", ", js);
    PrefixInside("[", Join(", ", js), "]", js[0]);
  }

  /** `json.dumps` writes a word as it is. */
  lemma {:induction false} JsonBodyOfWord(w: string)
    requires forall i :: 0 <= i < |w| ==> WordChar(w[i])
    ensures JsonBody(w) == w
    decreases |w|
  {
    if w != [] {
      assert JsonPlain(w[0]);
      JsonBodyOfWord(w[1..]);
    }
  }

  /** `json.dumps` does not start a word where there was none. */
  lemma JsonBodyEndsWord(t: string)
    requires EndsWord(t)
    ensures EndsWord(JsonBody(t))
  {
    if t != [] {
      assert JsonBody(t) == JsonChar(t[0]) + JsonBody(t[1..]);
    }
  }

  lemma {:induction false} JsonBodyNoQuote(s: string)
    requires NoQuote(s)
    ensures NoQuote(JsonBody(s))
    decreases |s|
  {
    if s != [] {
      assert s[0] in s;
      assert forall c :: c in s[1..] ==> c in s;
      JsonBodyNoQuote(s[1..]);
    }
  }

  /** `json.dumps` keeps a paired text paired: it writes a quote as one quote, and no other character as one. */
  lemma {:induction false} JsonBodyPaired(u: string)
    requires Paired(u)
    ensures Paired(JsonBody(u))
    decreases |u|
  {
    if u != [] {
      var head := JsonChar(u[0]);
      assert JsonBody(u) == head + JsonBody(u[1..]);
      if u[0] != '\'' {
        JsonBodyPaired(u[1..]);
        NoQuotePaired(head);
        PairedConcat(head, JsonBody(u[1..]));
      } else {
        var rest := u[2..];
        var d := JsonBody(rest);
        assert u[1..][1..] == rest;
        assert JsonBody(u[1..]) == JsonChar(u[1]) + d;
        assert JsonChar(u[1]) == ['\''];
        JsonBodyPaired(rest);
        DoubledPaired(d);
      }
    }
  }

  /** A doubled quote in front of a paired text keeps it paired. */
  lemma DoubledPaired(x: string)
    requires Paired(x)
    ensures Paired(['\''] + (['\''] + x))
  {
    var y := ['\''] + (['\''] + x);
    assert y[0] == '\'' && y[1] == '\'' && y[2..] == x;
  }

  lemma Assoc(p: string, q: string, w: string, t: string)
    ensures p + q + w + t == p + (q + (w + t))
  {
  }

  /** `json.dumps` of a text around a character it writes as it is, and a word. */
  lemma JsonOfLayout(p: string, c: char, w: string, t: string)
    requires JsonPlain(c) && IsWord(w)
    ensures JsonBody(p + [c] + w + t) == JsonBody(p) + [c] + w + JsonBody(t)
  {
    Assoc(p, [c], w, t);
    Assoc(JsonBody(p), [c], w, JsonBody(t));
    JsonBodyConcat(w, t);
    JsonBodyOfWord(w);
    JsonBodyCons(c, w + t);
    JsonBodyConcat(p, [c] + (w + t));
  }

  lemma JsonBodyCons(c: char, s: string)
    ensures JsonBody([c] + s) == JsonChar(c) + JsonBody(s)
  {
    assert ([c] + s)[0] == c && ([c] + s)[1..] == s;
  }

  /** A value that breaks still breaks once `json.dumps` has written it. */
  lemma JsonBodyBreaks(v: string, k: nat)
    requires BreaksAt(v, k)
    ensures var e := WordEnd(v, k + 1);
      JsonBody(v) == JsonBody(v[..k]) + "'" + v[k + 1..e] + JsonBody(v[e..])
    ensures Breaks(JsonBody(v))
  {
    var e := WordEnd(v, k + 1);
    var p, w, t := v[..k], v[k + 1..e], v[e..];
    Disassemble(v, k);
    JsonOfLayout(p, '\'', w, t);
    JsonBodyPaired(p);
    JsonBodyEndsWord(t);
    Assemble(JsonBody(p), w, JsonBody(t));
  }

  lemma {:induction false} ReprBodyConcat(a: string, b: string, q: char)
    ensures ReprBody(a + b, q) == ReprBody(a, q) + ReprBody(b, q)
    decreases |a|
  {
    if a != [] {
      assert (a + b)[0] == a[0] && (a + b)[1..] == a[1..] + b;
      ReprBodyConcat(a[1..], b, q);
    } else {
      assert a + b == b;
    }
  }

  /** `repr` writes a word as it is. */
  lemma {:induction false} ReprBodyOfWord(w: string)
    requires forall i :: 0 <= i < |w| ==> WordChar(w[i])
    ensures ReprBody(w, '\'') == w
    decreases |w|
  {
    if w != [] {
      ReprBodyOfWord(w[1..]);
    }
  }

  /** `repr` does not start a word where there was none. */
  lemma ReprBodyEndsWord(t: string, q: char)
    requires EndsWord(t) && !WordChar(q)
    ensures EndsWord(ReprBody(t, q) + [q, ')'])
  {
    if t != [] {
      var head := ReprChar(t[0], q);
      assert ReprBody(t, q) == head + ReprBody(t[1..], q);
      assert (ReprBody(t, q) + [q, ')'])[0] == head[0];
    }
  }

  /** `repr` of a message without quotes delimits it with single quotes. */
  lemma ReprOfPlain(e: Exn)
    requires NoQuote(e.arg)
    ensures Repr(e) == e.cls + "(" + (['\''] + ReprBody(e.arg, '\'') + ['\'']) + ")"
  {
    assert ReprQuote(e.arg) == '\'';
  }

  lemma ReprRegroup(cls: string, q: char, w: string, b: string)
    ensures cls + "(" + ([q] + (w + b) + [q]) + ")" == cls + ['('] + [q] + w + (b + [q, ')'])
  {
  }

  /** Where the first word of the message sits in an exception's `repr`. */
  lemma ReprLayout(e: Exn)
    requires NoQuote(e.cls) && NoQuote(e.arg) && e.arg != [] && WordChar(e.arg[0])
    ensures var n := WordEnd(e.arg, 0);
      var rest := ReprBody(e.arg[n..], '\'') + ['\'', ')'];
      && Repr(e) == e.cls + ['('] + ['\''] + e.arg[..n] + rest
      && IsWord(e.arg[..n]) && EndsWord(rest)
  {
    var q := '\'';
    var n := WordEnd(e.arg, 0);
    var w, t := e.arg[..n], e.arg[n..];
    WordSlice(e.arg, 0, n);
    assert e.arg == w + t;
    ReprBodyConcat(w, t, q);
    ReprBodyOfWord(w);
    ReprOfPlain(e);
    ReprBodyEndsWord(t, q);
    ReprRegroup(e.cls, q, w, ReprBody(t, q));
  }

  /**
   * The `repr` of an exception whose class has no quote and whose message
   * has none and starts with a word that cannot follow a literal breaks the
   * statement it is spliced into: `repr` delimits the message with a quote.
   */
  lemma ReprBreaks(e: Exn)
    requires NoQuote(e.cls) && NoQuote(e.arg)
    requires e.arg != [] && WordChar(e.arg[0]) && !MayFollowLiteral(e.arg[..WordEnd(e.arg, 0)])
    ensures Breaks(Repr(e))
  {
    ReprLayout(e);
    var n := WordEnd(e.arg, 0);
    var p := e.cls + ['('];
    assert NoQuote(p);
    NoQuotePaired(p);
    Assemble(p, e.arg[..n], ReprBody(e.arg[n..], '\'') + ['\'', ')']);
  }

  lemma NoQuoteConcat(a: string, b: string)
    requires NoQuote(a) && NoQuote(b)
    ensures NoQuote(a + b)
  {
  }

  /** A number, as `str` writes it, holds no quote. */
  lemma NumberNoQuote(n: nat)
    ensures NoQuote(NatToString(n))
  {
    var r := NatToString(n);
    assert forall i :: 0 <= i < |r| ==> r[i] != '\'';
  }

  /** The cut of a JSON list that keeps its whole first string. */
  lemma CutListLayout(ms: seq<string>, n: nat)
    requires ms != [] && 1 + |JsonString(ms[0])| <= n
    ensures var c := Take(JsonStringList(ms), n);
      c == "[\"" + JsonBody(ms[0]) + "\"" + c[1 + |JsonString(ms[0])|..]
  {
    var first := "[" + JsonString(ms[0]);
    JsonListStartsWithFirst(ms);
    var c := Take(JsonStringList(ms), n);
    assert c[..|first|] == first;
    assert c == first + c[|first|..];
  }

  lemma Regroup(top: string, jp: string, w: string, jt: string, rest: string)
    ensures top + ("[\"" + (jp + "'" + w + jt) + "\"" + rest)
         == (top + "[\"" + jp) + "'" + w + (jt + "\"" + rest)
  {
  }

  /** Where a quote and a word of the first string sit in a text followed by a cut of a JSON list. */
  lemma CutListAt(top: string, ms: seq<string>, n: nat, p: string, w: string, t: string)
    requires ms != [] && ms[0] == p + "'" + w + t && IsWord(w) && 1 + |JsonString(ms[0])| <= n
    ensures var c := Take(JsonStringList(ms), n);
      top + c == (top + "[\"" + JsonBody(p)) + "'" + w + (JsonBody(t) + "\"" + c[1 + |JsonString(ms[0])|..])
  {
    CutListLayout(ms, n);
    JsonOfLayout(p, '\'', w, t);
    var c := Take(JsonStringList(ms), n);
    Regroup(top, JsonBody(p), w, JsonBody(t), c[1 + |JsonString(ms[0])|..]);
  }

  /** A quote-free text, a paired text: a paired text. */
  lemma FrontPaired(top: string, p: string)
    requires NoQuote(top) && Paired(p)
    ensures Paired(top + "[\"" + JsonBody(p))
  {
    NoQuoteConcat(top, "[\"");
    NoQuotePaired(top + "[\"");
    JsonBodyPaired(p);
    PairedConcat(top + "[\"", JsonBody(p));
  }

  lemma BackEndsWord(t: string, rest: string)
    requires EndsWord(t)
    ensures EndsWord(JsonBody(t) + "\"" + rest)
  {
    JsonBodyEndsWord(t);
    var jt := JsonBody(t);
    if jt != [] {
      assert (jt + "\"" + rest)[0] == jt[0];
    }
  }

  /**
   * A text without quotes followed by a cut of a JSON list of strings breaks
   * when the list's first string breaks and the cut keeps all of it:
   * `json.dumps` writes a quote and a word as they are.
   */
  lemma CutListBreaks(top: string, ms: seq<string>, n: nat)
    requires NoQuote(top) && ms != [] && Breaks(ms[0]) && 1 + |JsonString(ms[0])| <= n
    ensures Breaks(top + Take(JsonStringList(ms), n))
  {
    var m := ms[0];
    BreaksExactly(m);
    var k: nat :| BreaksAt(m, k);
    var e := WordEnd(m, k + 1);
    var p, w, t := m[..k], m[k + 1..e], m[e..];
    Disassemble(m, k);
    CutListAt(top, ms, n, p, w, t);
    var rest := Take(JsonStringList(ms), n)[1 + |JsonString(m)|..];
    FrontPaired(top, p);
    BackEndsWord(t, rest);
    Assemble(top + "[\"" + JsonBody(p), w, JsonBody(t) + "\"" + rest);
  }

  /** The `repr` of an exception with an empty message: the class, `(`, a doubled quote, `)`. */
  lemma ReprOfEmpty(cls: string)
    ensures Repr(Exn(cls, "")) == cls + "(" + "''" + ")"
  {
    assert PyRepr("") == "''";
  }

  lemma ListOfOne(m: string)
    ensures JsonStringList([m]) == "[" + JsonString(m) + "]"
  {
    var js := JsonString(m);
    assert JsonStrings([m]) == [js];
  }

  /** A cut of the JSON list of one string that keeps all of it. */
  lemma CutListOfOne(m: string, n: nat)
    requires 2 + |JsonString(m)| <= n
    ensures Take(JsonStringList([m]), n) == "[" + ("\"" + JsonBody(m) + "\"") + "]"
  {
    ListOfOne(m);
  }

  /** `json.dumps` writes a doubled quote as it is. */
  lemma JsonOfDoubled(u: string, w: string)
    ensures JsonBody(u + "''" + w) == JsonBody(u) + "''" + JsonBody(w)
  {
    var c := '\'';
    assert JsonPlain(c);
    JsonBodyCons(c, w);
    JsonBodyCons(c, [c] + w);
    assert "''" + w == [c] + ([c] + w);
    assert u + "''" + w == u + ("''" + w);
    JsonBodyConcat(u, "''" + w);
  }

  lemma DoubledRegroup(top: string, ju: string, jw: string)
    ensures top + ("[" + ("\"" + (ju + "''" + jw) + "\"") + "]") == (top + "[\"" + ju) + "''" + (jw + "\"]")
  {
  }

  /**
   * A text without quotes followed by a cut of the JSON list of one string
   * whose only quotes are one doubled quote, when the cut keeps the whole
   * list: nothing in it ends the literal.
   */
  lemma CutListParses(top: string, u: string, w: string, n: nat)
    requires NoQuote(top) && NoQuote(u) && NoQuote(w)
    requires 2 + |JsonString(u + "''" + w)| <= n
    ensures !Breaks(top + Take(JsonStringList([u + "''" + w]), n))
  {
    var m := u + "''" + w;
    CutListOfOne(m, n);
    JsonOfDoubled(u, w);
    var ju, jw := JsonBody(u), JsonBody(w);
    JsonBodyNoQuote(u);
    JsonBodyNoQuote(w);
    DoubledRegroup(top, ju, jw);
    NoQuoteConcat(top, "[\"");
    NoQuoteConcat(top + "[\"", ju);
    NoQuoteConcat(jw, "\"]");
    DoubledQuoteParses(top + "[\"" + ju, jw + "\"]");
  }

  // ---------------------------------------------------------------------------
  // Quotes that do not break
  // ---------------------------------------------------------------------------

  /** A doubled quote between quote-free texts is a quote inside the literal: nothing breaks. */
  lemma DoubledQuoteParses(u: string, w: string)
    requires NoQuote(u) && NoQuote(w)
    ensures !Breaks(u + "''" + w)
  {
    var v := u + "''" + w;
    forall k: nat | k < |v|
      ensures !BreaksAt(v, k)
    {
      if k < |u| {
        assert v[k] == u[k];
        assert u[k] in u;
      } else if k == |u| {
        assert v[k + 1] == '\'';
      } else if k == |u| + 1 {
        assert v[..k] == u + "'";
        LoneQuoteUnpaired(u);
      } else {
        assert v[k] == w[k - |u| - 2];
        assert w[k - |u| - 2] in w;
      }
    }
    BreaksExactly(v);
  }

  lemma OrText()
    ensures var v := "x'OR'a";
      && WordEnd(v, 2) == 4 && v[2..4] == "OR" && !Paired(v[..4])
      && forall k :: 0 <= k < |v| && k != 1 && k != 4 ==> v[k] != '\''
  {
    var v := "x'OR'a";
    WordEndAt(v, 2, 4);
    assert v[..4][1..] == "'OR";
  }

  lemma OrFollowsLiteral()
    ensures MayFollowLiteral("OR")
  {
    assert Upper("OR") == "OR";
  }

  /** A quote followed by a word that may follow a literal does not break either: `'x'OR'a'` parses. */
  lemma QuoteBeforeKeywordParses()
    ensures !Breaks("x'OR'a")
  {
    OrText();
    OrFollowsLiteral();
    BreaksExactly("x'OR'a");
  }
}
