/**
 The Python `str` operations the ingest pipeline is built from, over `seq<char>`:
 `strip()`, `split('\n')`, `'\n'.join(...)`, `startswith`/`endswith`,
 `isdigit()` with `int()`, and `os.path.join` on POSIX.
 */
module Text {

  /** Python's `str.isspace` for one character: exactly the characters `strip()` removes. */
  predicate IsWhitespace(c: char) {
    || c == ' '
    || ('\t' <= c <= '\r')
    || ('\U{1C}' <= c <= '\U{1F}')
    || c == '\U{85}'
    || c == '\U{A0}'
    || c == '\U{1680}'
    || ('\U{2000}' <= c <= '\U{200A}')
    || c == '\U{2028}'
    || c == '\U{2029}'
    || c == '\U{202F}'
    || c == '\U{205F}'
    || c == '\U{3000}'
  }

  predicate AllWhitespace(s: string) {
    forall i :: 0 <= i < |s| ==> IsWhitespace(s[i])
  }

  /** `s.lstrip()`. */
  function TrimStart(s: string): string
    decreases |s|
  {
    if |s| > 0 && IsWhitespace(s[0]) then TrimStart(s[1..]) else s
  }

  /** `s.lstrip()` is the suffix of `s` left after dropping all of its leading whitespace. */
  lemma {:induction false} TrimStartSuffix(s: string)
    ensures |TrimStart(s)| <= |s| && TrimStart(s) == s[|s| - |TrimStart(s)|..]
    ensures AllWhitespace(s[..|s| - |TrimStart(s)|])
    ensures TrimStart(s) == [] || !IsWhitespace(TrimStart(s)[0])
    decreases |s|
  {
    if |s| > 0 && IsWhitespace(s[0]) {
      TrimStartSuffix(s[1..]);
      var r := TrimStart(s[1..]);
      assert s[1..][..|s| - 1 - |r|] == s[1..|s| - |r|];
    }
  }

  /** `s.rstrip()`. */
  function TrimEnd(s: string): string
    decreases |s|
  {
    if |s| > 0 && IsWhitespace(s[|s| - 1]) then TrimEnd(s[..|s| - 1]) else s
  }

  /** `s.rstrip()` is the prefix of `s` left after dropping all of its trailing whitespace. */
  lemma {:induction false} TrimEndPrefix(s: string)
    ensures TrimEnd(s) <= s
    ensures AllWhitespace(s[|TrimEnd(s)|..])
    ensures TrimEnd(s) == [] || !IsWhitespace(TrimEnd(s)[|TrimEnd(s)| - 1])
    decreases |s|
  {
    if |s| > 0 && IsWhitespace(s[|s| - 1]) {
      TrimEndPrefix(s[..|s| - 1]);
      var r := TrimEnd(s[..|s| - 1]);
      assert s[|r|..] == s[..|s| - 1][|r|..] + [s[|s| - 1]];
    }
  }

  /** `r` sits in `s` at offset `lead` with nothing but whitespace on either side of it. */
  predicate Framed(s: string, lead: int, r: string) {
    && 0 <= lead
    && lead + |r| <= |s|
    && s[lead..lead + |r|] == r
    && AllWhitespace(s[..lead])
    && AllWhitespace(s[lead + |r|..])
  }

  /** `s.strip()`. */
  function Strip(s: string): string {
    TrimEnd(TrimStart(s))
  }

  /** `s.strip()` is `s` with its leading and trailing whitespace, and only that, removed. */
  lemma StripFramed(s: string)
    ensures Framed(s, |s| - |TrimStart(s)|, Strip(s))
  {
    var t := TrimStart(s);
    var r := TrimEnd(t);
    TrimStartSuffix(s);
    TrimEndPrefix(t);
    assert r == Strip(s);
    var lead := |s| - |t|;
    assert s[lead..lead + |r|] == t[..|r|] == r;
    assert s[lead + |r|..] == t[|r|..];
  }

  /** `s.strip()` neither starts nor ends with whitespace. */
  lemma StripEnds(s: string)
    ensures Strip(s) == [] || (!IsWhitespace(Strip(s)[0]) && !IsWhitespace(Strip(s)[|Strip(s)| - 1]))
  {
    var t := TrimStart(s);
    var r := TrimEnd(t);
    TrimStartSuffix(s);
    TrimEndPrefix(t);
    assert r == Strip(s);
    if r != [] {
      assert r[0] == t[0];
    }
  }

  /** Leading whitespace is exactly what `TrimStart` removes. */
  lemma {:induction false} TrimStartAfterWhitespace(a: string, b: string)
    requires AllWhitespace(a)
    requires b == [] || !IsWhitespace(b[0])
    ensures TrimStart(a + b) == b
    decreases |a|
  {
    if |a| > 0 {
      assert (a + b)[1..] == a[1..] + b;
      TrimStartAfterWhitespace(a[1..], b);
    } else {
      assert a + b == b;
    }
  }

  /** Trailing whitespace is exactly what `TrimEnd` removes. */
  lemma {:induction false} TrimEndBeforeWhitespace(a: string, b: string)
    requires AllWhitespace(b)
    requires a == [] || !IsWhitespace(a[|a| - 1])
    ensures TrimEnd(a + b) == a
    decreases |b|
  {
    if |b| > 0 {
      assert (a + b)[..|a + b| - 1] == a + b[..|b| - 1];
      TrimEndBeforeWhitespace(a, b[..|b| - 1]);
    } else {
      assert a + b == a;
    }
  }

  /**
   `strip()` is characterised without reference to how it scans: any `t` framed
   by whitespace in `s` that neither starts nor ends with whitespace is `s.strip()`.
   */
  lemma StripUnique(s: string, lead: int, t: string)
    requires Framed(s, lead, t)
    requires t == [] || (!IsWhitespace(t[0]) && !IsWhitespace(t[|t| - 1]))
    ensures Strip(s) == t
  {
    if t == [] {
      assert AllWhitespace(s) by {
        assert s == s[..lead] + s[lead..];
      }
      assert s + [] == s;
      TrimStartAfterWhitespace(s, []);
    } else {
      var a, b := s[..lead], s[lead + |t|..];
      assert s == a + (t + b);
      TrimStartAfterWhitespace(a, t + b);
      TrimEndBeforeWhitespace(t, b);
    }
  }

  /** `'<sep>'.join(parts)`. */
  function Join(parts: seq<string>, sep: string): (r: string)
    ensures |parts| > 0 ==> parts[0] <= r
  {
    if |parts| == 0 then []
    else if |parts| == 1 then parts[0]
    else parts[0] + sep + Join(parts[1..], sep)
  }

  /** The position of the first occurrence of `c` in `s`. */
  function IndexOf(s: string, c: char): (k: nat)
    requires c in s
    ensures k < |s| && s[k] == c && c !in s[..k]
  {
    if s[0] == c then 0 else 1 + IndexOf(s[1..], c)
  }

  /** `s.split('\n')`: the pieces between newlines, losslessly. */
  function SplitLines(s: string): (lines: seq<string>)
    ensures |lines| > 0
    ensures Join(lines, "\n") == s
    ensures forall i :: 0 <= i < |lines| ==> '\n' !in lines[i]
    decreases |s|
  {
    if '\n' in s then
      var k := IndexOf(s, '\n');
      var rest := SplitLines(s[k + 1..]);
      assert s == s[..k] + "\n" + s[k + 1..];
      assert ([s[..k]] + rest)[1..] == rest;
      [s[..k]] + rest
    else
      [s]
  }

  /** `s.endswith(suffix)`. */
  predicate EndsWith(s: string, suffix: string) {
    |suffix| <= |s| && s[|s| - |suffix|..] == suffix
  }

  predicate AllDigits(s: string) {
    forall i :: 0 <= i < |s| ==> '0' <= s[i] <= '9'
  }

  /** `s.isdigit()`, restricted to the ASCII digits. */
  predicate IsDigits(s: string) {
    |s| > 0 && AllDigits(s)
  }

  /** `int(s)` for a string of decimal digits. */
  function DecimalValue(s: string): nat
    requires AllDigits(s)
    decreases |s|
  {
    if |s| == 0 then 0
    else 10 * DecimalValue(s[..|s| - 1]) + (s[|s| - 1] as int - '0' as int)
  }

  /** `str(n)` for a natural number. */
  function DecimalString(n: nat): (s: string)
    ensures IsDigits(s)
  {
    if n < 10 then ['0' + n as char]
    else DecimalString(n / 10) + ['0' + (n % 10) as char]
  }

  /** `int(str(n)) == n`: reading back the decimal rendering of a number gives the number. */
  lemma {:induction false} DecimalRoundTrip(n: nat)
    ensures DecimalValue(DecimalString(n)) == n
  {
    if n >= 10 {
      var s := DecimalString(n);
      assert s[..|s| - 1] == DecimalString(n / 10);
      DecimalRoundTrip(n / 10);
    }
  }

  /** `int('0' + s) == int(s)`: leading zeros do not change the value. */
  lemma {:induction false} LeadingZeroIgnored(s: string)
    requires AllDigits(s)
    ensures DecimalValue("0" + s) == DecimalValue(s)
    decreases |s|
  {
    if |s| > 0 {
      assert ("0" + s)[..|"0" + s| - 1] == "0" + s[..|s| - 1];
      LeadingZeroIgnored(s[..|s| - 1]);
    }
  }

  /** `os.path.join(a, b)` as `posixpath.join` defines it for two components. */
  function PathJoin(a: string, b: string): (r: string)
    ensures EndsWith(r, b)
    ensures 0 < |b| && b[0] == '/' ==> r == b
    ensures (b == [] || b[0] != '/') ==> r == a + b || r == a + "/" + b
    ensures (b == [] || b[0] != '/') ==> (r == a + "/" + b <==> a != [] && a[|a| - 1] != '/')
  {
    if 0 < |b| && b[0] == '/' then b
    else if a == [] || a[|a| - 1] == '/' then a + b
    else a + "/" + b
  }
}
