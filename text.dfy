/**
 * The JavaScript string operations the forms rely on: `trim`, `split` on a
 * one-character separator, `Array.prototype.join` and the ASCII part of
 * `toUpperCase`.
 */
module Text {

  /**
   * The characters `String.prototype.trim` removes: the ECMAScript WhiteSpace
   * and LineTerminator code points (tab to carriage return, space, no-break
   * space, the Unicode space separators, the line and paragraph separators and
   * the byte order mark).
   */
  predicate IsSpace(c: char) {
    || '\t' <= c <= '\r'
    || c == ' ' || c == '\U{00A0}' || c == '\U{1680}'
    || '\U{2000}' <= c <= '\U{200A}'
    || c == '\U{2028}' || c == '\U{2029}' || c == '\U{202F}' || c == '\U{205F}'
    || c == '\U{3000}' || c == '\U{FEFF}'
  }

  /** No whitespace at either end. */
  predicate Trimmed(s: string) {
    s == [] || (!IsSpace(s[0]) && !IsSpace(s[|s| - 1]))
  }

  /** `s.trimStart()`: the suffix of `s` left after dropping leading whitespace. */
  function TrimStart(s: string): (r: string)
    ensures |r| <= |s|
    ensures r == [] || !IsSpace(r[0])
    decreases |s|
  {
    if s != [] && IsSpace(s[0]) then TrimStart(s[1..]) else s
  }

  /** `trimStart` keeps a suffix and everything it drops is whitespace. */
  lemma {:induction false} TrimStartDrops(s: string)
    ensures TrimStart(s) == s[|s| - |TrimStart(s)|..]
    ensures forall i | 0 <= i < |s| - |TrimStart(s)| :: IsSpace(s[i])
    decreases |s|
  {
    if s != [] && IsSpace(s[0]) {
      TrimStartDrops(s[1..]);
      assert forall i | 1 <= i < |s| - |TrimStart(s)| :: s[i] == s[1..][i - 1];
    }
  }

  /** `s.trimEnd()`: the prefix of `s` left after dropping trailing whitespace. */
  function TrimEnd(s: string): (r: string)
    ensures |r| <= |s|
    ensures r == [] || !IsSpace(r[|r| - 1])
    ensures r != [] ==> r[0] == s[0]
    decreases |s|
  {
    if s != [] && IsSpace(s[|s| - 1]) then TrimEnd(s[..|s| - 1]) else s
  }

  /** `trimEnd` keeps a prefix and everything it drops is whitespace. */
  lemma {:induction false} TrimEndDrops(s: string)
    ensures TrimEnd(s) == s[..|TrimEnd(s)|]
    ensures forall i | |TrimEnd(s)| <= i < |s| :: IsSpace(s[i])
    decreases |s|
  {
    if s != [] && IsSpace(s[|s| - 1]) {
      TrimEndDrops(s[..|s| - 1]);
      assert forall i | |TrimEnd(s)| <= i < |s| - 1 :: s[i] == s[..|s| - 1][i];
    }
  }

  /** `s.trim()`: whitespace removed from both ends. */
  function Trim(s: string): (r: string)
    ensures Trimmed(r)
  {
    TrimEnd(TrimStart(s))
  }

  /** `trim` keeps an infix: every character it keeps comes from `s`. */
  lemma TrimKeepsInfix(s: string)
    ensures |Trim(s)| <= |s|
    ensures forall c | c in Trim(s) :: c in s
  {
    var t := TrimStart(s);
    var r := TrimEnd(t);
    TrimStartDrops(s);
    TrimEndDrops(t);
    forall c | c in r ensures c in s {
      var i :| 0 <= i < |r| && r[i] == c;
      assert t[i] == c;
      assert s[|s| - |t| + i] == c;
    }
  }

  /** `trim` only removes whitespace: a string without any is kept whole. */
  lemma TrimNoSpace(s: string)
    requires forall c | c in s :: !IsSpace(c)
    ensures Trim(s) == s
  {
    var t := TrimStart(s);
    TrimStartDrops(s);
    if |s| > 0 {
      assert s[0] in s;
    }
    TrimEndDrops(t);
    if |t| > 0 {
      assert t[|t| - 1] in s;
    }
  }

  /** `trim` gives the empty string exactly when `s` is all whitespace. */
  lemma TrimEmpty(s: string)
    ensures Trim(s) == [] <==> forall c | c in s :: IsSpace(c)
  {
    var t := TrimStart(s);
    var r := TrimEnd(t);
    TrimStartDrops(s);
    TrimEndDrops(t);
    if r == [] {
      forall c | c in s ensures IsSpace(c) {
        var i :| 0 <= i < |s| && s[i] == c;
      }
    } else {
      TrimKeepsInfix(s);
      assert r[0] in r;
    }
  }

  /** A string that is already trimmed is left as it is. */
  lemma TrimTrimmed(s: string)
    requires Trimmed(s)
    ensures Trim(s) == s
  {
  }

  /** A space put in front of a string is trimmed away. */
  lemma {:induction false} TrimLeadingSpace(s: string)
    ensures Trim(" " + s) == Trim(s)
  {
    assert (" " + s)[0] == ' ';
    assert (" " + s)[1..] == s;
  }

  /** `s.split(sep)` for a one-character separator: the pieces between separators, in order. */
  function Split(s: string, sep: char): (r: seq<string>)
    ensures |r| >= 1
    ensures forall i | 0 <= i < |r| :: sep !in r[i]
    decreases |s|
  {
    if s == [] then [""]
    else
      var rest := Split(s[1..], sep);
      if s[0] == sep then [""] + rest
      else [[s[0]] + rest[0]] + rest[1..]
  }

  /** Joining the pieces back with the separator restores the string. */
  lemma {:induction false} JoinSplit(s: string, sep: char)
    ensures Join(Split(s, sep), [sep]) == s
    decreases |s|
  {
    if s != [] {
      var rest := Split(s[1..], sep);
      JoinSplit(s[1..], sep);
      if s[0] == sep {
        assert s == [sep] + s[1..];
      } else {
        var r := [[s[0]] + rest[0]] + rest[1..];
        assert r[1..] == rest[1..];
        assert s == [s[0]] + s[1..];
      }
    }
  }

  /** `parts.join(sep)`. */
  function Join(parts: seq<string>, sep: string): string
    decreases |parts|
  {
    if |parts| == 0 then ""
    else if |parts| == 1 then parts[0]
    else parts[0] + sep + Join(parts[1..], sep)
  }

  /** A string without the separator is one piece. */
  lemma SplitNoSep(s: string, sep: char)
    requires sep !in s
    ensures Split(s, sep) == [s]
  {
    var r := Split(s, sep);
    JoinSplit(s, sep);
    if |r| > 1 {
      JoinLongerHasSep(r, sep);
    }
  }

  /** Joining two or more pieces puts the separator into the result. */
  lemma JoinLongerHasSep(parts: seq<string>, sep: char)
    requires |parts| > 1
    ensures sep in Join(parts, [sep])
  {
    assert Join(parts, [sep]) == parts[0] + [sep] + Join(parts[1..], [sep]);
    assert Join(parts, [sep])[|parts[0]|] == sep;
  }

  /** Splitting across a separator splits the two sides independently. */
  lemma {:induction false} SplitConcat(a: string, b: string, sep: char)
    ensures Split(a + [sep] + b, sep) == Split(a, sep) + Split(b, sep)
    decreases |a|
  {
    var s := a + [sep] + b;
    if a == [] {
      assert s == [sep] + b;
      assert s[1..] == b;
    } else {
      assert s[0] == a[0];
      assert s[1..] == a[1..] + [sep] + b;
      SplitConcat(a[1..], b, sep);
    }
  }

  /** Splitting what was joined with a separator that no piece contains gives back the pieces. */
  lemma {:induction false} SplitJoin(parts: seq<string>, sep: char)
    requires |parts| >= 1
    requires forall i | 0 <= i < |parts| :: sep !in parts[i]
    ensures Split(Join(parts, [sep]), sep) == parts
    decreases |parts|
  {
    if |parts| == 1 {
      SplitNoSep(parts[0], sep);
    } else {
      SplitJoin(parts[1..], sep);
      SplitConcat(parts[0], Join(parts[1..], [sep]), sep);
      SplitNoSep(parts[0], sep);
      assert parts == [parts[0]] + parts[1..];
    }
  }

  /** `c.toUpperCase()` for the ASCII letters; every other character is kept. */
  function UpperChar(c: char): (r: char)
    ensures 'a' <= c <= 'z' ==> 'A' <= r <= 'Z' && r as int - c as int == 'A' as int - 'a' as int
    ensures !('a' <= c <= 'z') ==> r == c
  {
    if 'a' <= c <= 'z' then (c as int - 'a' as int + 'A' as int) as char else c
  }

  /** `s.toUpperCase()` restricted to ASCII case mapping, character by character. */
  function Upper(s: string): (r: string)
    ensures |r| == |s|
    ensures forall i | 0 <= i < |s| :: r[i] == UpperChar(s[i])
    decreases |s|
  {
    if s == [] then [] else [UpperChar(s[0])] + Upper(s[1..])
  }

  /** The decimal digits of a natural number, as `String(n)` writes them. */
  function NatToString(n: nat): (r: string)
    ensures |r| >= 1
    ensures forall c | c in r :: '0' <= c <= '9'
    decreases n
  {
    var d := ['0' + (n % 10) as char];
    if n < 10 then d else NatToString(n / 10) + d
  }

  /** `String(n)` for an integer: a minus sign in front of a negative number. */
  function IntToString(n: int): string {
    if n < 0 then "-" + NatToString(-n) else NatToString(n)
  }

  /** The value of a string of decimal digits; other characters are skipped. */
  function DigitsValue(s: string): nat
    decreases |s|
  {
    if s == [] then 0
    else
      var last := s[|s| - 1];
      var prefix := DigitsValue(s[..|s| - 1]);
      if '0' <= last <= '9' then prefix * 10 + (last as int - '0' as int) else prefix
  }

  /** Reading back the digits `NatToString` writes gives the number. */
  lemma {:induction false} DigitsValueOfNat(n: nat)
    ensures DigitsValue(NatToString(n)) == n
    decreases n
  {
    var d := ['0' + (n % 10) as char];
    if n >= 10 {
      DigitsValueOfNat(n / 10);
      var s := NatToString(n / 10) + d;
      assert s[..|s| - 1] == NatToString(n / 10);
    }
  }
}
