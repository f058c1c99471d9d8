/**
 * Python's text renderings that end up in error messages: `repr` of a string
 * (and so of an exception) and `json.dumps` of a list of strings.
 */
module PyText {
  import opened Common

  function HexDigit(d: nat): char
    requires d < 16
  {
    "0123456789abcdef"[d]
  }

  lemma {:induction false} HexNoQuote(n: nat, width: nat)
    ensures '\'' !in Hex(n, width)
    decreases width
  {
    if width > 0 {
      HexNoQuote(n / 16, width - 1);
      assert HexDigit(n % 16) in "0123456789abcdef";
    }
  }

  /** `n` as exactly `width` lower-case hexadecimal digits (`format(n, "0{width}x")` for small `n`). */
  function Hex(n: nat, width: nat): (r: string)
    ensures |r| == width
    decreases width
  {
    if width == 0 then "" else Hex(n / 16, width - 1) + [HexDigit(n % 16)]
  }

  /** The quote `repr` delimits a string with: `"` only when the text has a `'` and no `"`. */
  function ReprQuote(s: string): char {
    if '\'' in s && '"' !in s then '"' else '\''
  }

  /**
   * The characters up to U+00FF that Python does not count as printable: the
   * C0 controls, DEL, the C1 controls, the no-break space and the soft hyphen.
   */
  predicate Latin1Unprintable(c: char) {
    (c as int) < 0x20 || (0x7f <= c as int <= 0xa0) || c as int == 0xad
  }

  /** One character as `repr` writes it; above U+00FF it is written as is. */
  function ReprChar(c: char, q: char): (r: string)
    ensures |r| >= 1 && (r[0] == c || r[0] == '\\')
  {
    if c == '\\' then "\\\\"
    else if c == q then ['\\', q]
    else if c == '\n' then "\\n"
    else if c == '\r' then "\\r"
    else if c == '\t' then "\\t"
    else if Latin1Unprintable(c) then "\\x" + Hex(c as int, 2)
    else [c]
  }

  function ReprBody(s: string, q: char): string
    decreases |s|
  {
    if s == [] then "" else ReprChar(s[0], q) + ReprBody(s[1..], q)
  }

  /** `repr(s)` for a string. */
  function PyRepr(s: string): (r: string)
    ensures |r| >= 2 && r[0] == ReprQuote(s) && r[|r| - 1] == ReprQuote(s)
  {
    var q := ReprQuote(s);
    [q] + ReprBody(s, q) + [q]
  }

  /** A `repr` always contains a single quote: as its delimiter, or inside when `"` delimits it. */
  lemma {:induction false} PyReprHasSingleQuote(s: string)
    ensures '\'' in PyRepr(s)
  {
    var q := ReprQuote(s);
    if q == '\'' {
      assert PyRepr(s)[0] == '\'';
    } else {
      var i :| 0 <= i < |s| && s[i] == '\'';
      ReprBodyKeeps(s, q, i);
      var r := PyRepr(s);
      var body := ReprBody(s, q);
      var j :| 0 <= j < |body| && body[j] == '\'';
      assert r[j + 1] == '\'';
    }
  }

  /** A character that `repr` does not escape survives into the rendering. */
  lemma {:induction false} ReprBodyKeeps(s: string, q: char, i: nat)
    requires i < |s| && s[i] == '\'' && q != '\''
    ensures '\'' in ReprBody(s, q)
    decreases |s|
  {
    if i == 0 {
      assert ReprChar(s[0], q) == "'";
      assert ReprBody(s, q)[0] == '\'';
    } else {
      ReprBodyKeeps(s[1..], q, i - 1);
      var tail := ReprBody(s[1..], q);
      var j :| 0 <= j < |tail| && tail[j] == '\'';
      assert ReprBody(s, q)[|ReprChar(s[0], q)| + j] == '\'';
    }
  }

  /** The characters `json.dumps` writes unescaped: printable ASCII other than `"` and `\`. */
  predicate JsonPlain(c: char) {
    ' ' <= c <= '~' && c != '"' && c != '\\'
  }

  /** One character as `json.dumps` (with `ensure_ascii`) writes it inside a string literal. */
  function JsonChar(c: char): (r: string)
    ensures JsonPlain(c) ==> r == [c]
    ensures !JsonPlain(c) ==> |r| >= 2 && r[0] == '\\'
    ensures c != '\'' ==> '\'' !in r
  {
    if c == '"' then "\\\""
    else if c == '\\' then "\\\\"
    else if c == '\n' then "\\n"
    else if c == '\r' then "\\r"
    else if c == '\t' then "\\t"
    else if c as int == 8 then "\\b"
    else if c as int == 12 then "\\f"
    else if JsonPlain(c) then [c]
    else JsonUnicode(c)
  }

  /** The `\uXXXX` escape of a character, as a UTF-16 surrogate pair outside the basic plane. */
  function JsonUnicode(c: char): (r: string)
    ensures |r| >= 2 && r[0] == '\\' && '\'' !in r
  {
    if (c as int) < 0x10000 then
      HexNoQuote(c as int, 4);
      "\\u" + Hex(c as int, 4)
    else
      var v := c as int - 0x10000;
      HexNoQuote(0xD800 + v / 0x400, 4);
      HexNoQuote(0xDC00 + v % 0x400, 4);
      "\\u" + Hex(0xD800 + v / 0x400, 4) + "\\u" + Hex(0xDC00 + v % 0x400, 4)
  }

  function JsonBody(s: string): string
    decreases |s|
  {
    if s == [] then "" else JsonChar(s[0]) + JsonBody(s[1..])
  }

  /** `json.dumps(s)` for a string. */
  function JsonString(s: string): string {
    "\"" + JsonBody(s) + "\""
  }

  function JsonStrings(xs: seq<string>): (r: seq<string>)
    ensures |r| == |xs|
    ensures forall i :: 0 <= i < |xs| ==> r[i] == JsonString(xs[i])
    decreases |xs|
  {
    if xs == [] then [] else [JsonString(xs[0])] + JsonStrings(xs[1..])
  }

  /** `json.dumps(xs)` for a list of strings. */
  function JsonStringList(xs: seq<string>): string {
    "[" + Join(", ", JsonStrings(xs)) + "]"
  }

  /** `json.dumps` keeps a single quote as it is. */
  lemma {:induction false} JsonBodyKeepsQuote(s: string)
    requires '\'' in s
    ensures '\'' in JsonBody(s)
    decreases |s|
  {
    if s[0] == '\'' {
      assert JsonBody(s)[0] == '\'';
    } else {
      JsonBodyKeepsQuote(s[1..]);
      var tail := JsonBody(s[1..]);
      var j :| 0 <= j < |tail| && tail[j] == '\'';
      assert JsonBody(s)[|JsonChar(s[0])| + j] == '\'';
    }
  }
}
