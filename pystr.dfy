/** The Python `str` built-ins the scraper relies on: `strip`, `lstrip` with a
    character set, `split`/`join` on one separator character, the `in`
    substring test, `upper`/`lower` and `int(...)` on a string. */
module PyStr {
  import opened Wrappers

  /** The characters `str.isspace` accepts, i.e. what `str.strip()` removes. */
  const Whitespace: set<char> := {
    '\U{9}', '\U{A}', '\U{B}', '\U{C}', '\U{D}', '\U{1C}', '\U{1D}', '\U{1E}',
    '\U{1F}', '\U{20}', '\U{85}', '\U{A0}', '\U{1680}', '\U{2000}', '\U{2001}', '\U{2002}',
    '\U{2003}', '\U{2004}', '\U{2005}', '\U{2006}', '\U{2007}', '\U{2008}', '\U{2009}', '\U{200A}',
    '\U{2028}', '\U{2029}', '\U{202F}', '\U{205F}', '\U{3000}'
  }

  /** `s.lstrip(cs)`: drop the longest prefix made of characters of `cs`. */
  function TrimStart(s: string, cs: set<char>): string
  {
    if s != [] && s[0] in cs then TrimStart(s[1..], cs) else s
  }

  /** `s.rstrip(cs)`: drop the longest suffix made of characters of `cs`. */
  function TrimEnd(s: string, cs: set<char>): string
  {
    if s != [] && s[|s| - 1] in cs then TrimEnd(s[..|s| - 1], cs) else s
  }

  /** `lstrip` keeps a suffix that does not start with a character of `cs`,
      and everything it drops is in `cs`. */
  lemma {:induction false} TrimStartSpec(s: string, cs: set<char>)
    ensures var r := TrimStart(s, cs); |r| <= |s| && r == s[|s| - |r|..]
    ensures var r := TrimStart(s, cs); r == [] || r[0] !in cs
    ensures var r := TrimStart(s, cs); forall i :: 0 <= i < |s| - |r| ==> s[i] in cs
  {
    if s != [] && s[0] in cs {
      TrimStartSpec(s[1..], cs);
      var r := TrimStart(s[1..], cs);
      assert forall i :: 1 <= i < |s| - |r| ==> s[i] == s[1..][i - 1];
    }
  }

  /** `rstrip` keeps a prefix that does not end with a character of `cs`,
      and everything it drops is in `cs`. */
  lemma {:induction false} TrimEndSpec(s: string, cs: set<char>)
    ensures var r := TrimEnd(s, cs); |r| <= |s| && r == s[..|r|]
    ensures var r := TrimEnd(s, cs); r == [] || r[|r| - 1] !in cs
    ensures var r := TrimEnd(s, cs); forall i :: |r| <= i < |s| ==> s[i] in cs
  {
    if s != [] && s[|s| - 1] in cs {
      TrimEndSpec(s[..|s| - 1], cs);
    }
  }

  /** Strip the characters of `cs` from both ends. */
  function TrimBoth(s: string, cs: set<char>): string
  {
    TrimEnd(TrimStart(s, cs), cs)
  }

  /** `s.strip()`. */
  function Strip(s: string): string
  {
    TrimBoth(s, Whitespace)
  }

  /** What is kept is the slice of `s` from `|s| - |TrimStart(s, cs)|`; it
      neither starts nor ends with a character of `cs`, and everything
      dropped on either side is in `cs`. */
  lemma {:induction false} TrimBothSpec(s: string, cs: set<char>)
    ensures var a := |s| - |TrimStart(s, cs)|; var r := TrimBoth(s, cs);
      0 <= a && a + |r| <= |s| && r == s[a..a + |r|]
    ensures var a := |s| - |TrimStart(s, cs)|; var r := TrimBoth(s, cs);
      (forall i :: 0 <= i < a ==> s[i] in cs)
      && (forall i :: a + |r| <= i < |s| ==> s[i] in cs)
    ensures var r := TrimBoth(s, cs); r == [] || (r[0] !in cs && r[|r| - 1] !in cs)
  {
    var t := TrimStart(s, cs);
    var r := TrimEnd(t, cs);
    TrimStartSpec(s, cs);
    TrimEndSpec(t, cs);
    if r != [] {
      assert r[0] == t[0];
    }
  }

  /** A string that neither starts nor ends with a character of `cs` is left as it is. */
  lemma {:induction false} TrimBothKeeps(s: string, cs: set<char>)
    requires s != [] && s[0] !in cs && s[|s| - 1] !in cs
    ensures TrimBoth(s, cs) == s
  {
    assert TrimStart(s, cs) == s;
  }

  /** Stripping gives the empty string exactly when every character is in `cs`. */
  lemma {:induction false} TrimBothEmptyIff(s: string, cs: set<char>)
    ensures TrimBoth(s, cs) == [] <==> forall i :: 0 <= i < |s| ==> s[i] in cs
  {
    var t := TrimStart(s, cs);
    TrimBothSpec(s, cs);
    TrimStartSpec(s, cs);
    if !(forall i :: 0 <= i < |s| ==> s[i] in cs) {
      var k :| 0 <= k < |s| && s[k] !in cs;
      assert k >= |s| - |t|;
      assert t[k - (|s| - |t|)] == s[k];
    }
  }

  /** Stripping twice is stripping once. */
  lemma {:induction false} TrimBothIdempotent(s: string, cs: set<char>)
    ensures TrimBoth(TrimBoth(s, cs), cs) == TrimBoth(s, cs)
  {
    TrimBothSpec(s, cs);
    var r := TrimBoth(s, cs);
    if r != [] {
      TrimBothKeeps(r, cs);
    }
  }

  /** `s.strip()` is empty exactly when `s` is all whitespace. */
  lemma {:induction false} StripEmptyIff(s: string)
    ensures Strip(s) == [] <==> forall i :: 0 <= i < |s| ==> s[i] in Whitespace
  {
    TrimBothEmptyIff(s, Whitespace);
  }

  /** Stripping twice is stripping once. */
  lemma {:induction false} StripIdempotent(s: string)
    ensures Strip(Strip(s)) == Strip(s)
  {
    TrimBothIdempotent(s, Whitespace);
  }

  /** `s.split(sep)` for a one-character separator. */
  function Split(s: string, sep: char): (parts: seq<string>)
    ensures |parts| >= 1
    ensures forall k :: 0 <= k < |parts| ==> sep !in parts[k]
    decreases |s|
  {
    if s == [] then [""]
    else
      var init := Split(s[..|s| - 1], sep);
      var c := s[|s| - 1];
      if c == sep then init + [""]
      else init[..|init| - 1] + [init[|init| - 1] + [c]]
  }

  /** `sep.join(parts)`. */
  function Join(parts: seq<string>, sep: char): string
  {
    if parts == [] then ""
    else if |parts| == 1 then parts[0]
    else Join(parts[..|parts| - 1], sep) + [sep] + parts[|parts| - 1]
  }

  lemma {:induction false} JoinAppendPart(parts: seq<string>, sep: char, p: string)
    requires |parts| >= 1
    ensures Join(parts + [p], sep) == Join(parts, sep) + [sep] + p
  {
    assert (parts + [p])[..|parts|] == parts;
  }

  lemma {:induction false} JoinAppendChar(parts: seq<string>, sep: char, c: char)
    requires |parts| >= 1
    ensures Join(parts[..|parts| - 1] + [parts[|parts| - 1] + [c]], sep) == Join(parts, sep) + [c]
  {
    var init := parts[..|parts| - 1];
    if |parts| > 1 {
      JoinAppendPart(init, sep, parts[|parts| - 1] + [c]);
    }
  }

  /** Joining the pieces of a split gives back the string. */
  lemma {:induction false} JoinSplit(s: string, sep: char)
    ensures Join(Split(s, sep), sep) == s
    decreases |s|
  {
    if s != [] {
      var x := s[..|s| - 1];
      var init := Split(x, sep);
      JoinSplit(x, sep);
      var c := s[|s| - 1];
      assert s == x + [c];
      if c == sep {
        JoinAppendPart(init, sep, "");
      } else {
        JoinAppendChar(init, sep, c);
      }
    }
  }

  /** Splitting a string with no separator gives that string alone. */
  lemma {:induction false} SplitNoSep(p: string, sep: char)
    requires sep !in p
    ensures Split(p, sep) == [p]
    decreases |p|
  {
    if p != [] {
      SplitNoSep(p[..|p| - 1], sep);
      assert p[..|p| - 1] + [p[|p| - 1]] == p;
    }
  }

  lemma {:induction false} SplitAfterSep(x: string, sep: char, l: string)
    requires sep !in l
    ensures Split(x + [sep] + l, sep) == Split(x, sep) + [l]
    decreases |l|
  {
    if l == [] {
      assert x + [sep] + l == x + [sep];
      assert (x + [sep])[..|x|] == x;
    } else {
      var l' := l[..|l| - 1];
      SplitAfterSep(x, sep, l');
      var s := x + [sep] + l;
      assert s[..|s| - 1] == x + [sep] + l';
      assert l' + [l[|l| - 1]] == l;
    }
  }

  /** Splitting a join of separator-free pieces gives back the pieces. */
  lemma {:induction false} SplitJoin(parts: seq<string>, sep: char)
    requires |parts| >= 1
    requires forall k :: 0 <= k < |parts| ==> sep !in parts[k]
    ensures Split(Join(parts, sep), sep) == parts
    decreases |parts|
  {
    if |parts| == 1 {
      SplitNoSep(parts[0], sep);
    } else {
      var init := parts[..|parts| - 1];
      var last := parts[|parts| - 1];
      var j := Join(init, sep);
      assert forall k :: 0 <= k < |init| ==> init[k] == parts[k];
      SplitJoin(init, sep);
      SplitAfterSep(j, sep, last);
      calc {
        Split(Join(parts, sep), sep);
        Split(j + [sep] + last, sep);
        Split(j, sep) + [last];
        init + [last];
        parts;
      }
    }
  }

  predicate IsPrefix(p: string, s: string)
  {
    |p| <= |s| && s[..|p|] == p
  }

  /** Python's `p in s` for strings. */
  predicate IsSubstring(p: string, s: string)
    decreases |s|
  {
    IsPrefix(p, s) || (s != [] && IsSubstring(p, s[1..]))
  }

  function UpperChar(c: char): char
  {
    if 'a' <= c <= 'z' then (c as int - 32) as char else c
  }

  function LowerChar(c: char): char
  {
    if 'A' <= c <= 'Z' then (c as int + 32) as char else c
  }

  /** `s.upper()`, on the ASCII letters. */
  function Upper(s: string): (r: string)
    ensures |r| == |s|
    ensures forall i :: 0 <= i < |s| ==> !('a' <= r[i] <= 'z')
    ensures forall i :: 0 <= i < |s| ==> LowerChar(r[i]) == LowerChar(s[i])
    ensures forall i :: 0 <= i < |s| && !('a' <= s[i] <= 'z') ==> r[i] == s[i]
  {
    seq(|s|, i requires 0 <= i < |s| => UpperChar(s[i]))
  }

  /** `s.lower()`, on the ASCII letters. */
  function Lower(s: string): (r: string)
    ensures |r| == |s|
    ensures forall i :: 0 <= i < |s| ==> !('A' <= r[i] <= 'Z')
    ensures forall i :: 0 <= i < |s| ==> UpperChar(r[i]) == UpperChar(s[i])
    ensures forall i :: 0 <= i < |s| && !('A' <= s[i] <= 'Z') ==> r[i] == s[i]
  {
    seq(|s|, i requires 0 <= i < |s| => LowerChar(s[i]))
  }

  /** Upper-casing both sides keeps a substring a substring, so the
      case-insensitive test `q.upper() in n.upper()` accepts every `q`
      that literally occurs in `n`. */
  lemma {:induction false} UpperKeepsSubstring(p: string, s: string)
    requires IsSubstring(p, s)
    ensures IsSubstring(Upper(p), Upper(s))
    decreases |s|
  {
    if IsPrefix(p, s) {
      assert Upper(s)[..|p|] == Upper(p);
    } else {
      UpperKeepsSubstring(p, s[1..]);
      assert Upper(s)[1..] == Upper(s[1..]);
    }
  }

  predicate IsDigit(c: char)
  {
    '0' <= c <= '9'
  }

  predicate AllDigits(s: string)
  {
    forall i :: 0 <= i < |s| ==> IsDigit(s[i])
  }

  /** The value of a string of decimal digits. */
  function DigitsValue(s: string): nat
    requires AllDigits(s)
  {
    if s == [] then 0
    else DigitsValue(s[..|s| - 1]) * 10 + (s[|s| - 1] as int - '0' as int)
  }

  /** `int(s)`: surrounding whitespace, an optional sign, then ASCII digits;
      anything else is a ValueError (None). */
  function ParseInt(s: string): Option<int>
  {
    ParseSigned(Strip(s))
  }

  /** An optional sign followed by ASCII digits, with nothing around them. */
  function ParseSigned(t: string): Option<int>
  {
    if t == [] then None
    else
      var body := if t[0] == '-' || t[0] == '+' then t[1..] else t;
      if body == [] || !AllDigits(body) then None
      else if t[0] == '-' then Some(0 - DigitsValue(body) as int)
      else Some(DigitsValue(body))
  }

  function DigitChar(d: nat): char
    requires d < 10
  {
    ('0' as int + d) as char
  }

  /** `str(n)` for a natural number. */
  function NatString(n: nat): string
  {
    if n < 10 then [DigitChar(n)] else NatString(n / 10) + [DigitChar(n % 10)]
  }

  /** `str(n)` for an integer. */
  function IntString(n: int): string
  {
    if n < 0 then "-" + NatString(-n) else NatString(n)
  }

  lemma {:induction false} NatStringDigits(n: nat)
    ensures NatString(n) != [] && AllDigits(NatString(n))
    ensures DigitsValue(NatString(n)) == n
  {
    if n >= 10 {
      NatStringDigits(n / 10);
      var s := NatString(n);
      assert s[..|s| - 1] == NatString(n / 10);
    }
  }

  lemma {:induction false} SignOrDigitNotSpace(c: char)
    requires IsDigit(c) || c == '-'
    ensures c !in Whitespace
  {
  }

  /** `str(n)` has no surrounding whitespace. */
  lemma {:induction false} IntStringStripped(n: int)
    ensures Strip(IntString(n)) == IntString(n)
  {
    var m: nat := if n < 0 then -n else n;
    NatStringDigits(m);
    var s := IntString(n);
    SignOrDigitNotSpace(s[0]);
    SignOrDigitNotSpace(s[|s| - 1]);
    TrimBothKeeps(s, Whitespace);
  }

  /** `int(str(n)) == n`: the key conversion of the team map inverts the
      way integers are written. */
  lemma {:induction false} ParseIntRoundTrip(n: int)
    ensures ParseInt(IntString(n)) == Some(n)
  {
    IntStringStripped(n);
    ParseSignedIntString(n);
  }

  lemma {:induction false} ParseSignedIntString(n: int)
    ensures ParseSigned(IntString(n)) == Some(n)
  {
    if n < 0 {
      assert IntString(n) == "-" + NatString(-n);
      ParseSignedNegative(-n);
    } else {
      assert IntString(n) == NatString(n);
      ParseSignedNat(n);
    }
  }

  lemma {:induction false} ParseSignedNat(m: nat)
    ensures ParseSigned(NatString(m)) == Some(m)
  {
    NatStringDigits(m);
    var s := NatString(m);
    assert IsDigit(s[0]);
  }

  lemma {:induction false} ParseSignedNegative(m: nat)
    requires m > 0
    ensures ParseSigned("-" + NatString(m)) == Some(-(m as int))
  {
    NatStringDigits(m);
    var s := "-" + NatString(m);
    assert s[0] == '-' && s[1..] == NatString(m);
  }
}
