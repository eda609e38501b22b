/**
 * The Python `str` built-ins the provisioning script relies on, with the
 * semantics CPython gives them: `str.replace`, `str.split`, `str.join`,
 * `str.startswith`, `str(int)` and `repr` of a string and of a list of strings.
 * Patterns and separators are always non-empty in the script, so only that
 * case is modelled.
 */
module PyStr {

  /** `s.endswith(suffix)` */
  predicate EndsWith(s: string, suffix: string)
  {
    |suffix| <= |s| && s[|s| - |suffix|..] == suffix
  }

  /** `p in s`: some position of `s` starts an occurrence of `p`. */
  predicate Contains(s: string, p: string)
    decreases |s|
  {
    p <= s || (|s| > 0 && Contains(s[1..], p))
  }

  /**
   * `s.replace(pat, rep)`: scan left to right; at each position where `pat`
   * starts, emit `rep` and skip past the occurrence, otherwise copy one
   * character. Occurrences therefore never overlap.
   */
  function ReplaceAll(s: string, pat: string, rep: string): (r: string)
    requires pat != []
    ensures !Contains(s, pat) ==> r == s
    ensures pat == rep ==> r == s
    decreases |s|
  {
    if s == [] then []
    else if pat <= s then rep + ReplaceAll(s[|pat|..], pat, rep)
    else [s[0]] + ReplaceAll(s[1..], pat, rep)
  }

  /** `s.split(sep)`: the pieces between the non-overlapping occurrences of `sep`. */
  function Split(s: string, sep: string): (pieces: seq<string>)
    requires sep != []
    ensures |pieces| >= 1
    ensures pieces[0] <= s
    decreases |s|
  {
    if s == [] then [[]]
    else if sep <= s then [[]] + Split(s[|sep|..], sep)
    else
      var rest := Split(s[1..], sep);
      [[s[0]] + rest[0]] + rest[1..]
  }

  /** `sep.join(pieces)` */
  function Join(pieces: seq<string>, sep: string): string
  {
    if |pieces| == 0 then []
    else if |pieces| == 1 then pieces[0]
    else pieces[0] + sep + Join(pieces[1..], sep)
  }

  /** Extending the first piece by one character extends the joined text by it. */
  lemma JoinConsChar(c: char, rest: seq<string>, sep: string)
    requires |rest| >= 1
    ensures Join([[c] + rest[0]] + rest[1..], sep) == [c] + Join(rest, sep)
  {
    var pieces := [[c] + rest[0]] + rest[1..];
    assert pieces[1..] == rest[1..];
  }

  /** Splitting and joining back with the same separator gives the text back. */
  lemma {:induction false} SplitJoin(s: string, sep: string)
    requires sep != []
    ensures Join(Split(s, sep), sep) == s
    decreases |s|
  {
    if s == [] {
    } else if sep <= s {
      var tail := s[|sep|..];
      var rest := Split(tail, sep);
      var pieces := [[]] + rest;
      assert Split(s, sep) == pieces;
      SplitJoin(tail, sep);
      assert pieces[1..] == rest;
      calc {
        Join(pieces, sep);
        [] + sep + Join(rest, sep);
        sep + tail;
        s;
      }
    } else {
      var rest := Split(s[1..], sep);
      assert Split(s, sep) == [[s[0]] + rest[0]] + rest[1..];
      SplitJoin(s[1..], sep);
      JoinConsChar(s[0], rest, sep);
      calc {
        Join([[s[0]] + rest[0]] + rest[1..], sep);
        [s[0]] + Join(rest, sep);
        [s[0]] + s[1..];
        s;
      }
    }
  }

  /**
   * Replacing is splitting at the pattern and joining with the replacement:
   * the text between occurrences is kept verbatim, each occurrence becomes `rep`.
   */
  lemma {:induction false} ReplaceIsSplitJoin(s: string, pat: string, rep: string)
    requires pat != []
    ensures ReplaceAll(s, pat, rep) == Join(Split(s, pat), rep)
    decreases |s|
  {
    if s == [] {
    } else if pat <= s {
      var tail := s[|pat|..];
      var rest := Split(tail, pat);
      var pieces := [[]] + rest;
      assert Split(s, pat) == pieces;
      ReplaceIsSplitJoin(tail, pat, rep);
      assert pieces[1..] == rest;
      calc {
        Join(pieces, rep);
        [] + rep + Join(rest, rep);
        rep + ReplaceAll(tail, pat, rep);
        ReplaceAll(s, pat, rep);
      }
    } else {
      var rest := Split(s[1..], pat);
      assert Split(s, pat) == [[s[0]] + rest[0]] + rest[1..];
      ReplaceIsSplitJoin(s[1..], pat, rep);
      JoinConsChar(s[0], rest, rep);
    }
  }

  /** No piece produced by `split` contains the separator. */
  lemma {:induction false} SplitPiecesFree(s: string, sep: string)
    requires sep != []
    ensures forall i :: 0 <= i < |Split(s, sep)| ==> !Contains(Split(s, sep)[i], sep)
    decreases |s|
  {
    var pieces := Split(s, sep);
    if s == [] {
      assert pieces == [[]];
      assert !Contains([], sep);
    } else if sep <= s {
      var rest := Split(s[|sep|..], sep);
      SplitPiecesFree(s[|sep|..], sep);
      assert pieces == [[]] + rest;
      assert !Contains([], sep);
      forall i | 0 <= i < |pieces| ensures !Contains(pieces[i], sep) {
        if i > 0 { assert pieces[i] == rest[i - 1]; }
      }
    } else {
      var rest := Split(s[1..], sep);
      SplitPiecesFree(s[1..], sep);
      var first := [s[0]] + rest[0];
      assert pieces == [first] + rest[1..];
      assert first <= s;
      assert first[1..] == rest[0];
      assert !Contains(rest[0], sep);
      assert !(sep <= first);
      assert !Contains(first, sep);
      forall i | 0 <= i < |pieces| ensures !Contains(pieces[i], sep) {
        if i > 0 { assert pieces[i] == rest[i]; }
      }
    }
  }

  /** A text missing one of the pattern's characters does not contain the pattern. */
  lemma {:induction false} NotContainsMissingChar(s: string, p: string, j: nat)
    requires j < |p| && p[j] !in s
    ensures !Contains(s, p)
    decreases |s|
  {
    if s != [] {
      NotContainsMissingChar(s[1..], p, j);
    }
  }

  /** A text in which the pattern's first character never occurs is copied as it is. */
  lemma {:induction false} ReplaceAllSkipFree(a: string, b: string, p: string, r: string)
    requires p != [] && p[0] !in a
    ensures ReplaceAll(a + b, p, r) == a + ReplaceAll(b, p, r)
    decreases |a|
  {
    if a != [] {
      var s := a + b;
      assert s[0] == a[0] && p[0] != a[0];
      assert !(p <= s);
      assert s[1..] == a[1..] + b;
      ReplaceAllSkipFree(a[1..], b, p, r);
      calc {
        ReplaceAll(s, p, r);
        [s[0]] + ReplaceAll(s[1..], p, r);
        [a[0]] + (a[1..] + ReplaceAll(b, p, r));
        a + ReplaceAll(b, p, r);
      }
    } else {
      assert a + b == b;
    }
  }

  /** For a one-character pattern, containment is membership of that character. */
  lemma {:induction false} ContainsChar(s: string, c: char)
    ensures Contains(s, [c]) <==> c in s
    decreases |s|
  {
    if s != [] {
      ContainsChar(s[1..], c);
      assert s == [s[0]] + s[1..];
    }
  }

  /** Replacing one character by one character keeps positions: a character-wise map. */
  lemma {:induction false} ReplaceOneChar(s: string, c: char, d: char)
    ensures |ReplaceAll(s, [c], [d])| == |s|
    ensures forall i :: 0 <= i < |s| ==> ReplaceAll(s, [c], [d])[i] == (if s[i] == c then d else s[i])
    decreases |s|
  {
    if s != [] {
      ReplaceOneChar(s[1..], c, d);
      var r := ReplaceAll(s, [c], [d]);
      var tail := ReplaceAll(s[1..], [c], [d]);
      if [c] <= s {
        assert s[0] == c;
        assert r == [d] + tail;
      } else {
        assert s[0] != c;
        assert r == [s[0]] + tail;
      }
      forall i | 0 <= i < |s| ensures r[i] == (if s[i] == c then d else s[i]) {
        if i > 0 { assert r[i] == tail[i - 1] && s[i] == s[1..][i - 1]; }
      }
    }
  }

  /** The decimal digit character for `d`. */
  function Digit(d: nat): (c: char)
    requires d < 10
    ensures '0' <= c <= '9' && c as int - '0' as int == d
  {
    (('0' as int) + d) as char
  }

  predicate IsDigits(s: string)
  {
    forall i :: 0 <= i < |s| ==> '0' <= s[i] <= '9'
  }

  /** `str(n)` for a non-negative integer: decimal digits, no leading zero. */
  function DecimalString(n: nat): (r: string)
    ensures |r| >= 1 && IsDigits(r)
    ensures r[0] == '0' ==> n == 0 && r == "0"
    decreases n
  {
    if n < 10 then [Digit(n)] else DecimalString(n / 10) + [Digit(n % 10)]
  }

  /** `int(s)` for a string of decimal digits. */
  function DecimalValue(s: string): nat
    requires IsDigits(s)
  {
    if s == [] then 0
    else DecimalValue(s[..|s| - 1]) * 10 + (s[|s| - 1] as int - '0' as int)
  }

  /** `int(str(n)) == n` */
  lemma {:induction false} DecimalRoundTrip(n: nat)
    ensures DecimalValue(DecimalString(n)) == n
    decreases n
  {
    var r := DecimalString(n);
    if n >= 10 {
      DecimalRoundTrip(n / 10);
      assert r[..|r| - 1] == DecimalString(n / 10);
    }
  }

  /** Lower-case hexadecimal digit, as in a `\xhh` escape. */
  function HexDigit(d: nat): char
    requires d < 16
  {
    "0123456789abcdef"[d]
  }

  /**
   * How `repr` writes one character inside a string literal quoted with `q`:
   * the quote and the backslash are escaped, tab, newline and carriage
   * return get their short escapes, other ASCII control characters `\xhh`.
   */
  function EscapeChar(c: char, q: char): string
  {
    if c == q || c == '\\' then ['\\', c]
    else if c == '\t' then "\\t"
    else if c == '\n' then "\\n"
    else if c == '\r' then "\\r"
    else if c as int < 32 || c as int == 127 then "\\x" + [HexDigit(c as int / 16), HexDigit(c as int % 16)]
    else [c]
  }

  function EscapeAll(s: string, q: char): string
  {
    if s == [] then [] else EscapeChar(s[0], q) + EscapeAll(s[1..], q)
  }

  /** `repr(s)`: single quotes, unless `s` holds a single quote and no double quote. */
  function ReprStr(s: string): string
  {
    var q := if '\'' in s && '"' !in s then '"' else '\'';
    [q] + EscapeAll(s, q) + [q]
  }

  /** A character `repr` copies as it is inside single quotes. */
  predicate PlainChar(c: char)
  {
    c != '\'' && c != '\\' && 32 <= c as int < 127
  }

  lemma {:induction false} EscapePlain(s: string)
    requires forall i :: 0 <= i < |s| ==> PlainChar(s[i])
    ensures EscapeAll(s, '\'') == s
    decreases |s|
  {
    if s != [] {
      EscapePlain(s[1..]);
      assert s == [s[0]] + s[1..];
    }
  }

  /** A string of plain characters is written between single quotes, unchanged. */
  lemma ReprPlain(s: string)
    requires forall i :: 0 <= i < |s| ==> PlainChar(s[i])
    ensures ReprStr(s) == "'" + s + "'"
  {
    EscapePlain(s);
  }

  function MapRepr(xs: seq<string>): (r: seq<string>)
    ensures |r| == |xs|
    ensures forall i :: 0 <= i < |xs| ==> r[i] == ReprStr(xs[i])
  {
    if xs == [] then [] else [ReprStr(xs[0])] + MapRepr(xs[1..])
  }

  /** `repr(xs)` for a list of strings: `[` , the items' reprs joined by `, `, `]`. */
  function ReprList(xs: seq<string>): string
  {
    "[" + Join(MapRepr(xs), ", ") + "]"
  }
}
