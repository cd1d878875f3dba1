/** The JavaScript built-ins the timestamp converter relies on:
    `String.prototype.split` with a one-character separator, and
    `parseInt(_, 10)` followed by `|| 0`. */
module JsStrings {
  import opened Wrappers

  /** Number of occurrences of `c` in `s`. */
  function Count(s: string, c: char): nat
  {
    if s == [] then 0 else (if s[0] == c then 1 else 0) + Count(s[1..], c)
  }

  /** `s.split(sep)`: the pieces of `s` between occurrences of `sep`, in order.
      Splitting always yields at least one piece (the empty string splits to `[""]`). */
  function Split(s: string, sep: char): (pieces: seq<string>)
    ensures |pieces| == Count(s, sep) + 1
    ensures forall i :: 0 <= i < |pieces| ==> sep !in pieces[i]
  {
    if s == [] then [""]
    else if s[0] == sep then [""] + Split(s[1..], sep)
    else
      var rest := Split(s[1..], sep);
      [[s[0]] + rest[0]] + rest[1..]
  }

  /** `pieces.join(sep)`, the inverse of `Split`. */
  function Join(pieces: seq<string>, sep: char): string
    requires |pieces| >= 1
  {
    if |pieces| == 1 then pieces[0] else pieces[0] + [sep] + Join(pieces[1..], sep)
  }

  /** Joining the pieces of a split gives back the original string. */
  lemma {:induction false} JoinSplit(s: string, sep: char)
    ensures Join(Split(s, sep), sep) == s
  {
    if s == [] {
    } else if s[0] == sep {
      JoinSplit(s[1..], sep);
      assert Split(s, sep)[1..] == Split(s[1..], sep);
    } else {
      JoinSplit(s[1..], sep);
      var rest := Split(s[1..], sep);
      var pieces := Split(s, sep);
      assert pieces[1..] == rest[1..];
      if |rest| == 1 {
      } else {
        assert Join(rest, sep) == rest[0] + [sep] + Join(rest[1..], sep);
      }
    }
  }

  /** Splitting a join of separator-free pieces gives back the pieces. */
  lemma {:induction false} SplitJoin(pieces: seq<string>, sep: char)
    requires |pieces| >= 1
    requires forall i :: 0 <= i < |pieces| ==> sep !in pieces[i]
    ensures Split(Join(pieces, sep), sep) == pieces
  {
    if |pieces| == 1 {
      SplitPlain(pieces[0], sep);
    } else {
      SplitJoin(pieces[1..], sep);
      SplitCons(pieces[0], Join(pieces[1..], sep), sep);
      assert pieces[0] + [sep] + Join(pieces[1..], sep) == pieces[0] + ([sep] + Join(pieces[1..], sep));
    }
  }

  /** A string without the separator splits to itself. */
  lemma {:induction false} SplitPlain(s: string, sep: char)
    requires sep !in s
    ensures Split(s, sep) == [s]
  {
    if s != [] {
      assert s[0] != sep by { assert s[0] in s; }
      SplitPlain(s[1..], sep);
      assert [s[0]] + s[1..] == s;
    }
  }

  /** Splitting `a + [sep] + b`, where `a` holds no separator, yields `a`
      followed by the pieces of `b`. */
  lemma {:induction false} SplitCons(a: string, b: string, sep: char)
    requires sep !in a
    ensures Split(a + ([sep] + b), sep) == [a] + Split(b, sep)
  {
    if a == [] {
      assert a + ([sep] + b) == [sep] + b;
      assert ([sep] + b)[1..] == b;
    } else {
      SplitCons(a[1..], b, sep);
      assert (a + ([sep] + b))[1..] == a[1..] + ([sep] + b);
      assert [a[0]] + a[1..] == a;
    }
  }

  /** The white space `parseInt` skips: ECMAScript's WhiteSpace and
      LineTerminator code points (the Zs category included). */
  predicate IsWhiteSpace(c: char)
  {
    c == '\t' || c == '\n' || c == '\U{B}' || c == '\U{C}' || c == '\r' || c == ' '
    || c == '\U{A0}' || c == '\U{1680}' || ('\U{2000}' <= c <= '\U{200A}')
    || c == '\U{2028}' || c == '\U{2029}' || c == '\U{202F}' || c == '\U{205F}'
    || c == '\U{3000}' || c == '\U{FEFF}'
  }

  predicate IsDigit(c: char)
  {
    '0' <= c <= '9'
  }

  predicate AllDigits(s: string)
  {
    forall i :: 0 <= i < |s| ==> IsDigit(s[i])
  }

  predicate AllWhiteSpace(s: string)
  {
    forall i :: 0 <= i < |s| ==> IsWhiteSpace(s[i])
  }

  /** `s` with its leading white space removed. */
  function TrimStart(s: string): (t: string)
    ensures |t| <= |s| && t == s[|s| - |t|..]
    ensures AllWhiteSpace(s[..|s| - |t|])
    ensures t == [] || !IsWhiteSpace(t[0])
  {
    if s != [] && IsWhiteSpace(s[0]) then TrimStart(s[1..]) else s
  }

  /** The longest prefix of `s` made of decimal digits. */
  function DigitPrefix(s: string): (d: string)
    ensures |d| <= |s| && d == s[..|d|]
    ensures AllDigits(d)
    ensures |d| == |s| || !IsDigit(s[|d|])
  {
    if s != [] && IsDigit(s[0]) then [s[0]] + DigitPrefix(s[1..]) else []
  }

  /** The value of a string of decimal digits, most significant first. */
  function DigitsValue(d: string): nat
    requires AllDigits(d)
  {
    if d == [] then 0 else DigitsValue(d[..|d| - 1]) * 10 + (d[|d| - 1] as int - '0' as int)
  }

  /** `parseInt(s, 10)`: skip leading white space, take an optional sign,
      then the longest run of decimal digits; `None` stands for NaN, the
      result when no digit follows. */
  function ParseInt(s: string): Option<int>
  {
    ParseSigned(TrimStart(s))
  }

  /** The sign `parseInt` reads at the start of `t`: `"-"`, `"+"` or none. */
  function SignPrefix(t: string): string
  {
    if t != [] && (t[0] == '-' || t[0] == '+') then [t[0]] else ""
  }

  /** `parseInt` after the white space: optional sign, then digits. */
  function ParseSigned(t: string): Option<int>
  {
    var sign := SignPrefix(t);
    var d := DigitPrefix(t[|sign|..]);
    if d == [] then None else Some(Signed(sign, DigitsValue(d)))
  }

  /** `parseInt(s, 10) || 0`: NaN (and -0) are falsy, so they become 0. */
  function ParseIntOrZero(s: string): int
  {
    match ParseInt(s)
    case None => 0
    case Some(v) => v
  }

  /** The digit prefix of `d + tail`, where `tail` does not start with a digit, is `d`. */
  lemma {:induction false} DigitPrefixOf(d: string, tail: string)
    requires AllDigits(d)
    requires tail == [] || !IsDigit(tail[0])
    ensures DigitPrefix(d + tail) == d
  {
    if d != [] {
      assert (d + tail)[1..] == d[1..] + tail;
      DigitPrefixOf(d[1..], tail);
    }
  }

  /** Leading white space is skipped entirely. */
  lemma {:induction false} TrimStartOf(ws: string, rest: string)
    requires AllWhiteSpace(ws)
    requires rest == [] || !IsWhiteSpace(rest[0])
    ensures TrimStart(ws + rest) == rest
  {
    if ws != [] {
      assert (ws + rest)[1..] == ws[1..] + rest;
      TrimStartOf(ws[1..], rest);
    }
  }

  /** What `parseInt` reads from white space, an optional sign, digits and any
      tail that does not continue the digits. */
  lemma ParseIntDigits(ws: string, sign: string, d: string, tail: string)
    requires AllWhiteSpace(ws)
    requires sign == "" || sign == "+" || sign == "-"
    requires d != [] && AllDigits(d)
    requires tail == [] || !IsDigit(tail[0])
    ensures ParseInt(ws + sign + d + tail) == Some(Signed(sign, DigitsValue(d)))
  {
    var rest := sign + (d + tail);
    assert ws + sign + d + tail == ws + rest;
    assert !IsWhiteSpace(rest[0]) by {
      if sign == "" { assert rest[0] == d[0]; } else { assert rest[0] == sign[0]; }
    }
    TrimStartOf(ws, rest);
    ParseSignedDigits(sign, d, tail);
  }

  lemma ParseSignedDigits(sign: string, d: string, tail: string)
    requires sign == "" || sign == "+" || sign == "-"
    requires d != [] && AllDigits(d)
    requires tail == [] || !IsDigit(tail[0])
    ensures ParseSigned(sign + (d + tail)) == Some(Signed(sign, DigitsValue(d)))
  {
    DigitPrefixOf(d, tail);
    assert (d + tail)[0] == d[0] && IsDigit(d[0]);
    SignPrefixOf(sign, d + tail);
  }

  /** The integer a sign string (`""`, `"+"` or `"-"`) gives a magnitude. */
  function Signed(sign: string, magnitude: nat): int
  {
    if sign == "-" then -(magnitude as int) else magnitude
  }

  /** Without a digit after the white space and optional sign, `parseInt`
      gives NaN, so `parseInt(_, 10) || 0` gives 0. */
  lemma ParseIntNoDigits(ws: string, sign: string, tail: string)
    requires AllWhiteSpace(ws)
    requires sign == "" || sign == "+" || sign == "-"
    requires tail == [] || (!IsDigit(tail[0]) && (sign != "" || !IsWhiteSpace(tail[0])))
    requires sign == "" ==> tail == [] || (tail[0] != '+' && tail[0] != '-')
    ensures ParseInt(ws + sign + tail) == None
    ensures ParseIntOrZero(ws + sign + tail) == 0
  {
    var rest := sign + tail;
    assert ws + sign + tail == ws + rest;
    TrimStartOf(ws, rest);
    SignPrefixOf(sign, tail);
    NoDigitPrefix(tail);
  }

  /** The sign `parseInt` reads from a sign string followed by text that
      does not start with another sign. */
  lemma SignPrefixOf(sign: string, rest: string)
    requires sign == "" || sign == "+" || sign == "-"
    requires sign == "" ==> rest == [] || (rest[0] != '+' && rest[0] != '-')
    ensures SignPrefix(sign + rest) == sign && (sign + rest)[|sign|..] == rest
  {
    var t := sign + rest;
    if sign != "" {
      assert t[0] == sign[0] && [t[0]] == sign;
    } else {
      assert t == rest;
    }
  }

  /** Text that does not start with a digit has an empty digit prefix. */
  lemma NoDigitPrefix(s: string)
    requires s == [] || !IsDigit(s[0])
    ensures DigitPrefix(s) == []
  {
  }

  /** `parseInt` of a string with no leading white space: the sign, if any,
      and then the digits. */
  lemma ParseIntUnpadded(sign: string, d: string, tail: string)
    requires sign == "" || sign == "+" || sign == "-"
    requires d != [] && AllDigits(d)
    requires tail == [] || !IsDigit(tail[0])
    ensures ParseInt(sign + (d + tail)) == Some(Signed(sign, DigitsValue(d)))
  {
    var rest := sign + (d + tail);
    assert !IsWhiteSpace(rest[0]) by {
      if sign == "" { assert rest[0] == d[0]; } else { assert rest[0] == sign[0]; }
    }
    assert TrimStart(rest) == rest;
    ParseSignedDigits(sign, d, tail);
  }

  /** Digits followed by a tail that does not continue them read as the
      value of the digits. */
  lemma ParseIntOfDigitsThen(d: string, tail: string)
    requires d != [] && AllDigits(d)
    requires tail == [] || !IsDigit(tail[0])
    ensures ParseIntOrZero(d + tail) == DigitsValue(d)
  {
    ParseIntUnpadded("", d, tail);
    assert "" + (d + tail) == d + tail;
  }

  /** A plain digit string is read as its decimal value. */
  lemma ParseIntOfDigits(d: string)
    requires d != [] && AllDigits(d)
    ensures ParseIntOrZero(d) == DigitsValue(d)
  {
    ParseIntOfDigitsThen(d, "");
    assert d + "" == d;
  }

  /** A minus sign followed by digits is read as the negated decimal value. */
  lemma ParseIntOfNegativeDigits(d: string)
    requires d != [] && AllDigits(d)
    ensures ParseIntOrZero("-" + d) == Signed("-", DigitsValue(d))
  {
    ParseIntUnpadded("-", d, "");
    assert d + "" == d;
  }

  /** `parseInt` gives NaN exactly when no digit follows the leading white
      space and the optional sign; otherwise its sign is the sign written. */
  lemma ParseIntCases(s: string)
    ensures var t := TrimStart(s);
            var afterSign := if t != [] && (t[0] == '-' || t[0] == '+') then t[1..] else t;
            ParseInt(s).None? <==> afterSign == [] || !IsDigit(afterSign[0])
    ensures var t := TrimStart(s);
            ParseInt(s).Some? && t[0] == '-' ==> ParseInt(s).value <= 0
    ensures var t := TrimStart(s);
            ParseInt(s).Some? && t[0] != '-' ==> ParseInt(s).value >= 0
  {
    ParseSignedCases(TrimStart(s));
  }

  /** `ParseIntCases` after the white space. */
  lemma ParseSignedCases(t: string)
    ensures var afterSign := if t != [] && (t[0] == '-' || t[0] == '+') then t[1..] else t;
            ParseSigned(t).None? <==> afterSign == [] || !IsDigit(afterSign[0])
    ensures ParseSigned(t).Some? && t[0] == '-' ==> ParseSigned(t).value <= 0
    ensures ParseSigned(t).Some? && t[0] != '-' ==> ParseSigned(t).value >= 0
  {
    var afterSign := if t != [] && (t[0] == '-' || t[0] == '+') then t[1..] else t;
    var sign := SignPrefix(t);
    assert t[|sign|..] == afterSign;
    assert ParseSigned(t).Some? ==> t != [] && (t[0] == '-' <==> sign == "-");
  }

  /** `parseInt(s, 10) || 0` is 0 for NaN and the parsed number otherwise. */
  lemma ParseIntOrZeroCases(s: string)
    ensures ParseInt(s).None? ==> ParseIntOrZero(s) == 0
    ensures ParseInt(s).Some? ==> ParseIntOrZero(s) == ParseInt(s).value
  {
  }
}
