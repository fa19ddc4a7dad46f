/** String helpers with the semantics of the Java library calls the source uses. */
module Strings {
  import opened Wrappers

  /** StringUtils.isEmpty / the `s != null && !s.isEmpty()` guards: null or "". */
  predicate IsEmpty(s: Option<string>) {
    s.None? || s.value == ""
  }

  /** Concatenation of a list of strings. */
  function Concat(parts: seq<string>): (r: string)
    ensures parts == [] ==> r == ""
  {
    if parts == [] then "" else parts[0] + Concat(parts[1..])
  }

  lemma {:induction false} ConcatAppend(a: seq<string>, b: seq<string>)
    ensures Concat(a + b) == Concat(a) + Concat(b)
  {
    if a == [] {
      assert a + b == b;
    } else {
      assert (a + b)[0] == a[0];
      assert (a + b)[1..] == a[1..] + b;
      ConcatAppend(a[1..], b);
    }
  }

  /** `parts` joined with `sep` between consecutive elements. */
  function Join(sep: string, parts: seq<string>): (r: string)
    ensures |parts| == 1 ==> r == parts[0]
    ensures parts == [] ==> r == ""
  {
    if parts == [] then ""
    else if |parts| == 1 then parts[0]
    else parts[0] + sep + Join(sep, parts[1..])
  }

  lemma {:induction false} JoinSnoc(sep: string, parts: seq<string>, x: string)
    requires parts != []
    ensures Join(sep, parts + [x]) == Join(sep, parts) + sep + x
  {
    if |parts| == 1 {
      assert parts + [x] == [parts[0], x];
    } else {
      assert (parts + [x])[1..] == parts[1..] + [x];
      JoinSnoc(sep, parts[1..], x);
    }
  }

  // ----- decimal rendering (Integer.toString / Long.toString / string concatenation of an int)

  function DigitChar(d: nat): (c: char)
    requires d < 10
    ensures '0' <= c <= '9'
  {
    ['0', '1', '2', '3', '4', '5', '6', '7', '8', '9'][d]
  }

  predicate IsDigits(s: string) {
    forall i :: 0 <= i < |s| ==> '0' <= s[i] <= '9'
  }

  /** Decimal digits of n, without leading zeros. */
  function NatToString(n: nat): (r: string)
    ensures |r| >= 1 && IsDigits(r)
    ensures n < 10 ==> |r| == 1
    ensures n >= 10 ==> r[0] != '0'
    decreases n
  {
    if n < 10 then [DigitChar(n)] else NatToString(n / 10) + [DigitChar(n % 10)]
  }

  /** Value of a string of decimal digits: the inverse of NatToString. */
  function DigitsValue(s: string): nat
    requires IsDigits(s)
  {
    if s == [] then 0 else 10 * DigitsValue(s[..|s| - 1]) + (s[|s| - 1] as int - '0' as int)
  }

  lemma DigitCharValue(d: nat)
    requires d < 10
    ensures DigitChar(d) as int - '0' as int == d
  {
  }

  lemma {:induction false} NatToStringRoundTrip(n: nat)
    ensures DigitsValue(NatToString(n)) == n
    decreases n
  {
    var r := NatToString(n);
    if n < 10 {
      DigitCharValue(n);
    } else {
      NatToStringRoundTrip(n / 10);
      DigitCharValue(n % 10);
      assert r[..|r| - 1] == NatToString(n / 10);
    }
  }

  /** Distinct numbers render as distinct strings. */
  lemma NatToStringInjective(a: nat, b: nat)
    requires NatToString(a) == NatToString(b)
    ensures a == b
  {
    NatToStringRoundTrip(a);
    NatToStringRoundTrip(b);
  }

  /** Integer.toString: an optional minus sign before the digits of the magnitude. */
  function IntToString(i: int): (r: string)
    ensures |r| >= 1
    ensures i >= 0 ==> r == NatToString(i)
    ensures i < 0 ==> r == "-" + NatToString(-i)
  {
    if i >= 0 then NatToString(i) else "-" + NatToString(-i)
  }

  lemma IntToStringInjective(a: int, b: int)
    requires IntToString(a) == IntToString(b)
    ensures a == b
  {
    if a >= 0 && b >= 0 {
      NatToStringInjective(a, b);
    } else if a < 0 && b < 0 {
      assert IntToString(a)[1..] == NatToString(-a);
      assert IntToString(b)[1..] == NatToString(-b);
      NatToStringInjective(-a, -b);
    }
  }

  // ----- case handling (ASCII only)

  function UpperChar(c: char): (u: char)
    ensures 'a' <= c <= 'z' ==> 'A' <= u <= 'Z'
    ensures !('a' <= c <= 'z') ==> u == c
  {
    if 'a' <= c <= 'z' then (c as int - 'a' as int + 'A' as int) as char else c
  }

  /** String.toUpperCase restricted to ASCII letters. */
  function ToUpper(s: string): (r: string)
    ensures |r| == |s|
    ensures forall i :: 0 <= i < |s| ==> r[i] == UpperChar(s[i])
  {
    if s == [] then [] else [UpperChar(s[0])] + ToUpper(s[1..])
  }

  /** String.equalsIgnoreCase restricted to ASCII letters. */
  predicate EqualsIgnoreCase(a: string, b: string) {
    |a| == |b| && forall i :: 0 <= i < |a| ==> UpperChar(a[i]) == UpperChar(b[i])
  }

  // ----- String.trim

  /** String.trim treats every char up to U+0020 as white space. */
  predicate IsTrimmable(c: char) {
    c <= ' '
  }

  function TrimStart(s: string): (r: string)
    ensures |r| <= |s| && r == s[|s| - |r|..]
    ensures r == [] || !IsTrimmable(r[0])
    ensures forall i :: 0 <= i < |s| - |r| ==> IsTrimmable(s[i])
  {
    if s != [] && IsTrimmable(s[0]) then TrimStart(s[1..]) else s
  }

  function TrimEnd(s: string): (r: string)
    ensures |r| <= |s| && r == s[..|r|]
    ensures r == [] || !IsTrimmable(r[|r| - 1])
    ensures forall i :: |r| <= i < |s| ==> IsTrimmable(s[i])
  {
    if s != [] && IsTrimmable(s[|s| - 1]) then TrimEnd(s[..|s| - 1]) else s
  }

  /** String.trim: drops leading and trailing chars up to U+0020. */
  function Trim(s: string): (r: string)
  {
    TrimEnd(TrimStart(s))
  }

  /** Trim keeps the middle of the string: the result is the slice s[i..j] where i counts
      the trimmable chars cut from the front and |s| - j those cut from the back. */
  lemma TrimIsSlice(s: string) returns (i: nat, j: nat)
    ensures i <= j <= |s| && Trim(s) == s[i..j]
    ensures forall k :: 0 <= k < i ==> IsTrimmable(s[k])
    ensures forall k :: j <= k < |s| ==> IsTrimmable(s[k])
  {
    var t := TrimStart(s);
    i := |s| - |t|;
    var u := TrimEnd(t);
    j := i + |u|;
    assert Trim(s) == u;
    PrefixOfSuffix(s, i, t, u);
    assert u == s[i..j];
    TrimmableTail(s, i, t, |u|);
  }

  lemma PrefixOfSuffix(s: string, i: nat, t: string, u: string)
    requires i <= |s| && t == s[i..] && |u| <= |t| && u == t[..|u|]
    ensures u == s[i..i + |u|]
  {
  }

  lemma TrimmableTail(s: string, i: nat, t: string, n: nat)
    requires i <= |s| && t == s[i..] && n <= |t|
    requires forall k :: n <= k < |t| ==> IsTrimmable(t[k])
    ensures forall k :: i + n <= k < |s| ==> IsTrimmable(s[k])
  {
    forall k | i + n <= k < |s| ensures IsTrimmable(s[k]) {
      assert s[k] == t[k - i];
    }
  }

  /** The result neither starts nor ends with a trimmable char. */
  lemma TrimEnds(s: string)
    ensures Trim(s) == [] || (!IsTrimmable(Trim(s)[0]) && !IsTrimmable(Trim(s)[|Trim(s)| - 1]))
  {
    var t := TrimStart(s);
    var u := TrimEnd(t);
    if u != [] {
      assert u[0] == t[0];
    }
  }

  lemma TrimIdempotent(s: string)
    ensures Trim(Trim(s)) == Trim(s)
  {
    TrimEnds(s);
    var u := Trim(s);
    assert TrimStart(u) == u;
    assert TrimEnd(u) == u;
  }

  // ----- String.split(",")

  /** All pieces between commas (n commas give n + 1 pieces). */
  function CommaPieces(s: string): (r: seq<string>)
    ensures |r| >= 1
    ensures forall k :: 0 <= k < |r| ==> ',' !in r[k]
    decreases |s|
  {
    if ',' !in s then [s]
    else
      var i := FirstComma(s);
      [s[..i]] + CommaPieces(s[i + 1..])
  }

  function FirstComma(s: string): (i: nat)
    requires ',' in s
    ensures i < |s| && s[i] == ',' && ',' !in s[..i]
  {
    if s[0] == ',' then 0 else
      assert ',' in s[1..] by { var k :| 0 <= k < |s| && s[k] == ','; assert s[1..][k - 1] == ','; }
      1 + FirstComma(s[1..])
  }

  /** Joining the pieces back with commas gives the original string. */
  lemma {:induction false} CommaPiecesJoin(s: string)
    ensures Join(",", CommaPieces(s)) == s
    decreases |s|
  {
    if ',' in s {
      var i := FirstComma(s);
      var rest := CommaPieces(s[i + 1..]);
      assert CommaPieces(s) == [s[..i]] + rest;
      JoinCons(",", s[..i], rest);
      CommaPiecesJoin(s[i + 1..]);
      assert s == s[..i] + "," + s[i + 1..];
    }
  }

  lemma JoinCons(sep: string, x: string, parts: seq<string>)
    requires parts != []
    ensures Join(sep, [x] + parts) == x + sep + Join(sep, parts)
  {
    assert ([x] + parts)[0] == x;
    assert ([x] + parts)[1..] == parts;
  }

  function DropTrailingEmpty(ps: seq<string>): (r: seq<string>)
    ensures |r| <= |ps| && r == ps[..|r|]
    ensures r == [] || r[|r| - 1] != ""
    ensures forall k :: |r| <= k < |ps| ==> ps[k] == ""
  {
    if ps != [] && ps[|ps| - 1] == "" then DropTrailingEmpty(ps[..|ps| - 1]) else ps
  }

  /** String.split(","): the whole string when it has no comma; otherwise the pieces
      with the trailing empty ones removed. */
  function JavaSplitComma(s: string): (r: seq<string>)
    ensures ',' !in s ==> r == [s]
    ensures forall k :: 0 <= k < |r| ==> ',' !in r[k]
  {
    if ',' !in s then [s] else DropTrailingEmpty(CommaPieces(s))
  }
}
