/** The parts of JavaScript's string and number built-ins that the shop's code
    relies on: the `\s` character class, `toLowerCase` (restricted to ASCII),
    `trim`, `split(/\s+/)`, `join`, `parseInt` and the `x || d` defaulting idiom,
    and the decimal rendering of integers inside template strings. */
module JsText {
  import opened Wrappers

  /** The characters matched by `\s` and removed by `trim`: the WhiteSpace and
      LineTerminator code points of ECMAScript. */
  predicate IsSpace(c: char) {
    c == ' ' || c == '\t' || c == '\n' || c == '\r' || c == '\U{0B}' || c == '\U{0C}'
    || c == '\U{A0}' || c == '\U{1680}' || ('\U{2000}' <= c <= '\U{200A}')
    || c == '\U{2028}' || c == '\U{2029}' || c == '\U{202F}' || c == '\U{205F}'
    || c == '\U{3000}' || c == '\U{FEFF}'
  }

  predicate IsDigit(c: char) { '0' <= c <= '9' }

  predicate IsAsciiLower(c: char) { 'a' <= c <= 'z' }

  predicate IsAsciiUpper(c: char) { 'A' <= c <= 'Z' }

  predicate IsAsciiLetter(c: char) { IsAsciiLower(c) || IsAsciiUpper(c) }

  predicate NoSpace(s: string) { forall i :: 0 <= i < |s| ==> !IsSpace(s[i]) }

  predicate AllSpace(s: string) { forall i :: 0 <= i < |s| ==> IsSpace(s[i]) }

  /** `toLowerCase` on one character; only ASCII letters are folded. */
  function Lower(c: char): char {
    if IsAsciiUpper(c) then (c as int + 32) as char else c
  }

  function LowerAll(s: string): (r: string)
    ensures |r| == |s|
  {
    if s == [] then [] else [Lower(s[0])] + LowerAll(s[1..])
  }

  /** `toLowerCase` acts character by character. */
  lemma {:induction false} LowerAllAt(s: string)
    ensures forall i :: 0 <= i < |s| ==> LowerAll(s)[i] == Lower(s[i])
  {
    if s != [] {
      LowerAllAt(s[1..]);
      assert LowerAll(s) == [Lower(s[0])] + LowerAll(s[1..]);
    }
  }

  /** A string with no ASCII upper-case letter is its own lower case. */
  lemma {:induction false} LowerAllFixed(s: string)
    requires forall i :: 0 <= i < |s| ==> !IsAsciiUpper(s[i])
    ensures LowerAll(s) == s
  {
    if s != [] {
      LowerAllFixed(s[1..]);
    }
  }

  /** `trimStart`: drops the leading white space (see `TrimStartSpec`). */
  function TrimStart(s: string): (r: string)
    ensures |r| <= |s|
  {
    if s != [] && IsSpace(s[0]) then TrimStart(s[1..]) else s
  }

  /** `trimEnd`: drops the trailing white space (see `TrimEndSpec`). */
  function TrimEnd(s: string): (r: string)
    ensures |r| <= |s|
  {
    if s != [] && IsSpace(s[|s| - 1]) then TrimEnd(s[..|s| - 1]) else s
  }

  /** `trim` (see `TrimSpec`). */
  function Trim(s: string): string {
    TrimEnd(TrimStart(s))
  }

  /** `trimStart` keeps a suffix of its input, cuts only white space, and
      what it keeps does not start with white space. */
  lemma {:induction false} TrimStartSpec(s: string)
    ensures var r := TrimStart(s);
      r == s[|s| - |r|..] && AllSpace(s[..|s| - |r|]) && (r == [] || !IsSpace(r[0]))
  {
    if s != [] && IsSpace(s[0]) {
      TrimStartSpec(s[1..]);
      var r := TrimStart(s);
      assert s[..|s| - |r|] == [s[0]] + s[1..][..|s| - 1 - |r|];
    }
  }

  /** `trimEnd` keeps a prefix of its input, cuts only white space, and what
      it keeps does not end with white space. */
  lemma {:induction false} TrimEndSpec(s: string)
    ensures var r := TrimEnd(s);
      r == s[..|r|] && AllSpace(s[|r|..]) && (r == [] || !IsSpace(r[|r| - 1]))
  {
    if s != [] && IsSpace(s[|s| - 1]) {
      var init := s[..|s| - 1];
      TrimEndSpec(init);
      var r := TrimEnd(s);
      assert s[|r|..] == init[|r|..] + [s[|s| - 1]];
    }
  }

  /** What `trim` keeps is a slice of its input with only white space cut
      away on either side, and it neither starts nor ends with white space. */
  lemma TrimSpec(s: string)
    ensures var r := Trim(s);
      (exists i :: 0 <= i <= i + |r| <= |s| && r == s[i..i + |r|] && AllSpace(s[..i]) && AllSpace(s[i + |r|..]))
      && (r == [] || (!IsSpace(r[0]) && !IsSpace(r[|r| - 1])))
  {
    var a := TrimStart(s);
    var r := TrimEnd(a);
    TrimStartSpec(s);
    TrimEndSpec(a);
    var i := |s| - |a|;
    assert r == s[i..i + |r|];
    assert s[i + |r|..] == a[|r|..];
  }

  /** Where the slice that `trim` keeps starts. */
  lemma TrimSlice(s: string) returns (i: nat)
    ensures i + |Trim(s)| <= |s| && Trim(s) == s[i..i + |Trim(s)|]
    ensures AllSpace(s[..i]) && AllSpace(s[i + |Trim(s)|..])
  {
    TrimSpec(s);
    var r := Trim(s);
    i :| 0 <= i <= i + |r| <= |s| && r == s[i..i + |r|] && AllSpace(s[..i]) && AllSpace(s[i + |r|..]);
  }

  /** `s.split(/\s+/)`: the pieces between maximal runs of white space.  A
      leading or trailing run gives an empty first or last piece, and the
      empty string gives `[""]`. */
  function SplitWs(s: string): (r: seq<string>)
    ensures |r| >= 1
    ensures forall k :: 0 <= k < |r| ==> NoSpace(r[k])
    decreases |s|
  {
    if s == [] then [""]
    else if IsSpace(s[0]) then [""] + SplitWs(TrimStart(s))
    else
      var t := SplitWs(s[1..]);
      [[s[0]] + t[0]] + t[1..]
  }

  /** A word without white space is one piece. */
  lemma {:induction false} SplitWsOfWord(a: string)
    requires a != "" && NoSpace(a)
    ensures SplitWs(a) == [a]
  {
    assert !IsSpace(a[0]);
    if |a| == 1 {
      assert a[1..] == [];
      assert [a[0]] + "" == a;
    } else {
      SplitWsOfWord(a[1..]);
      assert [a[0]] + a[1..] == a;
    }
  }

  /** A word, one space, then text that starts with a non-space character:
      the word is the first piece and the rest splits on its own. */
  lemma {:induction false} SplitWsOfWordThen(a: string, b: string)
    requires a != "" && NoSpace(a) && b != [] && !IsSpace(b[0])
    ensures SplitWs(a + " " + b) == [a] + SplitWs(b)
  {
    var s := a + " " + b;
    assert s[0] == a[0];
    assert s[1..] == a[1..] + " " + b;
    assert !IsSpace(s[0]);
    if |a| == 1 {
      assert s[1..] == " " + b;
      assert (" " + b)[1..] == b;
      assert TrimStart(" " + b) == b;
      assert SplitWs(s[1..]) == [""] + SplitWs(b);
      assert [a[0]] + "" == a;
    } else {
      SplitWsOfWordThen(a[1..], b);
      assert [a[0]] + a[1..] == a;
    }
  }

  /** `trimStart` drops a whole white-space run when the end or a non-space
      character follows it. */
  lemma {:induction false} TrimStartOfRun(w: string, b: string)
    requires AllSpace(w) && (b == [] || !IsSpace(b[0]))
    ensures TrimStart(w + b) == b
  {
    if w == [] {
      assert w + b == b;
    } else {
      ConsOfAppend(w, b);
      TrimStartOfRun(w[1..], b);
    }
  }

  /** A leading white-space run, however long, gives one empty first piece;
      the text after it splits on its own. */
  lemma SplitWsOfLeadingRun(w: string, b: string)
    requires w != [] && AllSpace(w) && (b == [] || !IsSpace(b[0]))
    ensures SplitWs(w + b) == [""] + SplitWs(b)
  {
    ConsOfAppend(w, b);
    TrimStartOfRun(w, b);
  }

  /** A word followed by a maximal white-space run of any length: the word is
      the first piece and the text after the run splits on its own (a
      trailing run gives a last piece `""`). */
  lemma {:induction false} SplitWsOfWordRun(a: string, w: string, b: string)
    requires a != "" && NoSpace(a) && w != [] && AllSpace(w) && (b == [] || !IsSpace(b[0]))
    ensures SplitWs(a + w + b) == [a] + SplitWs(b)
  {
    var s := a + w + b;
    assert s[0] == a[0] && !IsSpace(s[0]);
    assert s[1..] == a[1..] + w + b;
    if |a| == 1 {
      assert s[1..] == w + b;
      SplitWsOfLeadingRun(w, b);
      assert [a[0]] + "" == a;
    } else {
      SplitWsOfWordRun(a[1..], w, b);
      assert [a[0]] + a[1..] == a;
    }
  }

  /** `split(/\s+/)` undoes `join(" ")` on non-empty pieces without white
      space. */
  lemma {:induction false} SplitWsOfJoin(parts: seq<string>)
    requires |parts| >= 1
    requires forall k :: 0 <= k < |parts| ==> parts[k] != "" && NoSpace(parts[k])
    ensures SplitWs(Join(parts, " ")) == parts
  {
    if |parts| == 1 {
      SplitWsOfWord(parts[0]);
    } else {
      var rest := Join(parts[1..], " ");
      SplitWsOfJoin(parts[1..]);
      assert rest[0] == parts[1][0] by {
        if |parts| > 2 {
          assert rest == parts[1] + " " + Join(parts[2..], " ");
        }
      }
      SplitWsOfWordThen(parts[0], rest);
      assert [parts[0]] + parts[1..] == parts;
    }
  }

  /** `parts.join(sep)`. */
  function Join(parts: seq<string>, sep: string): string {
    if parts == [] then ""
    else if |parts| == 1 then parts[0]
    else parts[0] + sep + Join(parts[1..], sep)
  }

  /** `s.split(c)` for a one-character separator: the pieces between the
      separators, so `k` separators give `k + 1` pieces. */
  function SplitOn(s: string, c: char): (r: seq<string>)
    ensures |r| >= 1
    ensures forall k :: 0 <= k < |r| ==> c !in r[k]
  {
    if s == [] then [""]
    else if s[0] == c then [""] + SplitOn(s[1..], c)
    else
      var t := SplitOn(s[1..], c);
      [[s[0]] + t[0]] + t[1..]
  }

  /** The head and tail of a concatenation with a non-empty left part. */
  lemma ConsOfAppend<T>(a: seq<T>, b: seq<T>)
    requires a != []
    ensures (a + b)[0] == a[0] && (a + b)[1..] == a[1..] + b
  {
  }

  /** A character found in neither the pieces nor the separator is not in
      their join. */
  lemma {:induction false} JoinWithout(parts: seq<string>, sep: string, c: char)
    requires c !in sep && forall k :: 0 <= k < |parts| ==> c !in parts[k]
    ensures c !in Join(parts, sep)
  {
    if |parts| > 1 {
      JoinWithout(parts[1..], sep, c);
    }
  }

  /** The first piece does not look past a prefix without the separator. */
  lemma {:induction false} SplitOnFirst(a: string, b: string, c: char)
    requires c !in a
    ensures SplitOn(a + b, c)[0] == a + SplitOn(b, c)[0]
  {
    if a == [] {
      assert a + b == b;
    } else {
      SplitOnFirst(a[1..], b, c);
      assert (a + b)[1..] == a[1..] + b;
      assert [a[0]] + a[1..] == a;
    }
  }

  /** Joining the pieces with the separator gives back the string. */
  lemma {:induction false} JoinSplitOn(s: string, c: char)
    ensures Join(SplitOn(s, c), [c]) == s
  {
    if s != [] {
      JoinSplitOn(s[1..], c);
      var t := SplitOn(s[1..], c);
      if s[0] != c && |t| > 1 {
        assert ([[s[0]] + t[0]] + t[1..])[1..] == t[1..];
        JoinTail(t, [c]);
      } else if s[0] != c {
        assert t == [t[0]];
      } else {
        assert ([""] + t)[1..] == t;
      }
    }
  }

  lemma JoinTail(t: seq<string>, sep: string)
    requires |t| > 1
    ensures Join(t, sep) == t[0] + sep + Join(t[1..], sep)
  {
  }

  /** Splitting pieces joined by a separator that none of them contains
      gives back the pieces. */
  lemma {:induction false} SplitOnJoin(parts: seq<string>, c: char)
    requires |parts| >= 1
    requires forall k :: 0 <= k < |parts| ==> c !in parts[k]
    ensures SplitOn(Join(parts, [c]), c) == parts
  {
    if |parts| == 1 {
      SplitOnWithout(parts[0], c);
    } else {
      SplitOnJoin(parts[1..], c);
      SplitOnAt(parts[0], Join(parts[1..], [c]), c);
      assert [parts[0]] + parts[1..] == parts;
    }
  }

  lemma {:induction false} SplitOnWithout(a: string, c: char)
    requires c !in a
    ensures SplitOn(a, c) == [a]
  {
    if a != [] {
      SplitOnWithout(a[1..], c);
      assert [a[0]] + a[1..] == a;
    }
  }

  /** A separator after a separator-free prefix ends the first piece there. */
  lemma {:induction false} SplitOnAt(a: string, b: string, c: char)
    requires c !in a
    ensures SplitOn(a + [c] + b, c) == [a] + SplitOn(b, c)
  {
    if a == [] {
      assert a + [c] + b == [c] + b;
      assert ([c] + b)[1..] == b;
    } else {
      SplitOnAt(a[1..], b, c);
      assert (a + [c] + b)[1..] == a[1..] + [c] + b;
      assert [a[0]] + a[1..] == a;
    }
  }

  /** The longest prefix of `s` made of characters satisfying `ok`. */
  function PrefixWhile(s: string, ok: char -> bool): (r: string)
    ensures |r| <= |s| && r == s[..|r|]
    ensures forall i :: 0 <= i < |r| ==> ok(r[i])
    ensures |r| < |s| ==> !ok(s[|r|])
  {
    if s != [] && ok(s[0]) then [s[0]] + PrefixWhile(s[1..], ok) else []
  }

  predicate IsHexDigit(c: char) { IsDigit(c) || 'a' <= c <= 'f' || 'A' <= c <= 'F' }

  function HexDigitValue(c: char): nat
    requires IsHexDigit(c)
  {
    if IsDigit(c) then c as int - '0' as int
    else if 'a' <= c <= 'f' then c as int - 'a' as int + 10
    else c as int - 'A' as int + 10
  }

  /** The value of a run of digits in the given radix, most significant first. */
  function DigitsValue(d: string, radix: nat): nat
    requires forall i :: 0 <= i < |d| ==> IsHexDigit(d[i])
  {
    if d == [] then 0 else DigitsValue(d[..|d| - 1], radix) * radix + HexDigitValue(d[|d| - 1])
  }

  /** `parseInt(s)` with no radix: leading white space is skipped, an optional
      sign is read, and the digits that follow are converted; no digits gives
      `NaN` (here `None`). */
  function ParseInt(s: string): Option<int> {
    var t := TrimStart(s);
    if t != [] && t[0] == '-' then
      match ParseUnsigned(t[1..])
      case None => None
      case Some(v) => Some(0 - v as int)
    else if t != [] && t[0] == '+' then ParseUnsigned(t[1..])
    else ParseUnsigned(t)
  }

  /** The unsigned part of `parseInt`: a `0x`/`0X` prefix switches to base 16,
      and the longest run of digits of the base is converted. */
  function ParseUnsigned(u: string): Option<nat> {
    if |u| >= 2 && u[0] == '0' && (u[1] == 'x' || u[1] == 'X') then
      var d := PrefixWhile(u[2..], IsHexDigit);
      if d == [] then None else Some(DigitsValue(d, 16))
    else
      var d := PrefixWhile(u, IsDigit);
      if d == [] then None else Some(DigitsValue(d, 10))
  }

  /** A request or URL parameter that may be absent: `parseInt(undefined)` is `NaN`. */
  function ParseParam(p: Option<string>): Option<int> {
    match p
    case None => None
    case Some(s) => ParseInt(s)
  }

  /** `n || d` for a number `n` that may be `NaN`: both `NaN` and `0` are falsy. */
  function OrDefault(n: Option<int>, d: int): (r: int)
    ensures (n == None || n == Some(0)) ==> r == d
    ensures n.Some? && n.value != 0 ==> r == n.value
  {
    if n.None? || n.value == 0 then d else n.value
  }

  function DigitChar(k: nat): (c: char)
    requires k < 10
    ensures IsDigit(c) && HexDigitValue(c) == k
  {
    ('0' as int + k) as char
  }

  /** The decimal rendering of a natural number, as in `${n}`. */
  function NatToString(n: nat): (r: string)
    ensures |r| >= 1 && forall i :: 0 <= i < |r| ==> IsDigit(r[i])
    ensures r[0] == '0' ==> n == 0
  {
    if n < 10 then [DigitChar(n)] else NatToString(n / 10) + [DigitChar(n % 10)]
  }

  /** The decimal rendering of an integer, as in `${i}`. */
  function IntToString(i: int): (r: string)
    ensures |r| >= 1
  {
    if i < 0 then "-" + NatToString(-i) else NatToString(i)
  }

  lemma {:induction false} NatToStringValue(n: nat)
    ensures DigitsValue(NatToString(n), 10) == n
  {
    if n >= 10 {
      NatToStringValue(n / 10);
      var s := NatToString(n);
      assert s[..|s| - 1] == NatToString(n / 10);
    }
  }

  /** `parseInt` reads back what `${i}` wrote, for every integer. */
  lemma ParseIntOfIntToString(i: int)
    ensures ParseInt(IntToString(i)) == Some(i)
  {
    if i < 0 {
      ParseIntOfNegative(i);
    } else {
      ParseIntOfNat(i);
    }
  }

  lemma ParseUnsignedOfNat(n: nat)
    ensures ParseUnsigned(NatToString(n)) == Some(n)
  {
    var s := NatToString(n);
    NatToStringValue(n);
    PrefixWhileAll(s, IsDigit);
    if s[0] == '0' {
      assert s == [DigitChar(0)];
    }
  }

  lemma ParseIntOfNat(n: nat)
    ensures ParseInt(NatToString(n)) == Some(n)
  {
    var s := NatToString(n);
    assert IsDigit(s[0]);
    assert TrimStart(s) == s;
    ParseUnsignedOfNat(n);
  }

  lemma ParseIntOfNegative(i: int)
    requires i < 0
    ensures ParseInt(IntToString(i)) == Some(i)
  {
    var n: nat := -i;
    var s := IntToString(i);
    assert s == "-" + NatToString(n);
    assert TrimStart(s) == s;
    assert s[1..] == NatToString(n);
    ParseUnsignedOfNat(n);
  }

  lemma {:induction false} PrefixWhileAll(s: string, ok: char -> bool)
    requires forall i :: 0 <= i < |s| ==> ok(s[i])
    ensures PrefixWhile(s, ok) == s
  {
    if s != [] {
      PrefixWhileAll(s[1..], ok);
    }
  }

  /** After `trim`, `split(/\s+/)` yields an empty piece only for the empty
      string, where the whole result is `[""]`. */
  lemma SplitTrimmed(s: string)
    requires s == [] || (!IsSpace(s[0]) && !IsSpace(s[|s| - 1]))
    ensures s == [] ==> SplitWs(s) == [""]
    ensures s != [] ==> forall k :: 0 <= k < |SplitWs(s)| ==> SplitWs(s)[k] != ""
  {
    if s != [] {
      SplitNoEmptyAfterFirst(s);
    }
  }

  lemma {:induction false} SplitNoEmptyAfterFirst(s: string)
    requires s != [] && !IsSpace(s[|s| - 1])
    ensures forall k :: 1 <= k < |SplitWs(s)| ==> SplitWs(s)[k] != ""
    ensures !IsSpace(s[0]) ==> SplitWs(s)[0] != ""
    decreases |s|
  {
    if IsSpace(s[0]) {
      var t := TrimStart(s);
      TrimStartSpec(s);
      assert t != [] by {
        assert !IsSpace(s[|s| - 1]);
      }
      SplitNoEmptyAfterFirst(t);
    } else if |s| > 1 {
      SplitNoEmptyAfterFirst(s[1..]);
    }
  }
}
