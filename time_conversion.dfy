/** `vttTimeToSeconds` from src/components/VideoPlayer.tsx: a lenient reading
    of an "HH:MM:SS.mmm" timestamp. Seconds are exact reals here. */
module TimeConversion {
  import opened Wrappers
  import opened JsStrings

  /** What JavaScript throws when the third `:` field is missing and
      `rest.split` is called on `undefined`. */
  const SplitOfUndefined := "TypeError: Cannot read properties of undefined (reading 'split')"

  /** The combination the converter returns: hours, minutes, whole seconds
      and a count of thousandths. */
  function Seconds(h: int, m: int, s: int, millis: int): real
  {
    (h * 3600 + m * 60 + s) as real + millis as real / 1000.0
  }

  /** `vttTimeToSeconds(timeStr)`: split on `:`, take the first three fields,
      split the third on `.`, read each part with `parseInt(_, 10) || 0`.
      Fewer than two colons leave the third field undefined and the call throws. */
  function VttTimeToSeconds(timeStr: string): (r: Completion<real>)
    ensures r.Thrown? <==> Count(timeStr, ':') < 2
    ensures r.Thrown? ==> r.error == SplitOfUndefined
  {
    var fields := Split(timeStr, ':');
    if |fields| < 3 then Thrown(SplitOfUndefined)
    else Normal(ReadFields(fields[0], fields[1], fields[2]))
  }

  /** The value read from the fields `hh`, `mm` and `rest`: `rest` is split
      on `.` into whole seconds and thousandths, the latter "0" when absent. */
  function ReadFields(hh: string, mm: string, rest: string): real
  {
    var parts := Split(rest, '.');
    var ms := if |parts| >= 2 then parts[1] else "0";
    Seconds(ParseIntOrZero(hh), ParseIntOrZero(mm), ParseIntOrZero(parts[0]), ParseIntOrZero(ms))
  }

  /** A timestamp of exactly three colon-separated fields reads those fields. */
  lemma ReadsThreeFields(a: string, b: string, c: string)
    requires ':' !in a && ':' !in b && ':' !in c
    ensures VttTimeToSeconds(a + ":" + b + ":" + c) == Normal(ReadFields(a, b, c))
  {
    ThreeFields(a, b, c);
  }

  /** The fields of `a:b:c` when none of the three contains a colon. */
  lemma ThreeFields(a: string, b: string, c: string)
    requires ':' !in a && ':' !in b && ':' !in c
    ensures Split(a + ":" + b + ":" + c, ':') == [a, b, c]
  {
    var pieces := [a, b, c];
    assert Join(pieces, ':') == a + ":" + b + ":" + c by {
      assert Join(pieces[1..], ':') == b + [':'] + Join(pieces[2..], ':');
    }
    SplitJoin(pieces, ':');
  }

  /** The two parts of `x.y` when neither contains a dot. */
  lemma TwoParts(x: string, y: string)
    requires '.' !in x && '.' !in y
    ensures Split(x + "." + y, '.') == [x, y]
  {
    assert Join([x, y], '.') == x + "." + y;
    SplitJoin([x, y], '.');
  }

  lemma DigitsHaveNoSeparator(d: string, c: char)
    requires AllDigits(d) && !IsDigit(c)
    ensures c !in d
  {
  }

  /** A well-formed "HH:MM:SS.mmm" timestamp of digit fields reads as
      `h*3600 + m*60 + s + ms/1000`, the fraction counted in thousandths. */
  lemma DigitTimestamp(hh: string, mm: string, ss: string, ms: string)
    requires hh != [] && mm != [] && ss != [] && ms != []
    requires AllDigits(hh) && AllDigits(mm) && AllDigits(ss) && AllDigits(ms)
    ensures VttTimeToSeconds(hh + ":" + mm + ":" + ss + "." + ms)
         == Normal(Seconds(DigitsValue(hh), DigitsValue(mm), DigitsValue(ss), DigitsValue(ms)))
  {
    var rest := ss + "." + ms;
    DigitsHaveNoSeparator(hh, ':');
    DigitsHaveNoSeparator(mm, ':');
    DigitsHaveNoSeparator(ss, ':');
    DigitsHaveNoSeparator(ms, ':');
    DigitsHaveNoSeparator(ss, '.');
    DigitsHaveNoSeparator(ms, '.');
    assert ':' !in rest;
    assert hh + ":" + mm + ":" + ss + "." + ms == hh + ":" + mm + ":" + rest;
    ReadsThreeFields(hh, mm, rest);
    TwoParts(ss, ms);
    ParseIntOfDigits(hh);
    ParseIntOfDigits(mm);
    ParseIntOfDigits(ss);
    ParseIntOfDigits(ms);
  }

  /** `DigitTimestamp` for a caller that already knows the number of seconds
      the four digit fields make. */
  lemma DigitTimestampIs(hh: string, mm: string, ss: string, ms: string, t: real)
    requires hh != [] && mm != [] && ss != [] && ms != []
    requires AllDigits(hh) && AllDigits(mm) && AllDigits(ss) && AllDigits(ms)
    requires Seconds(DigitsValue(hh), DigitsValue(mm), DigitsValue(ss), DigitsValue(ms)) == t
    ensures VttTimeToSeconds(hh + ":" + mm + ":" + ss + "." + ms) == Normal(t)
  {
    DigitTimestamp(hh, mm, ss, ms);
  }

  /** Without a `.` in the seconds field the thousandths default to 0. */
  lemma NoFraction(hh: string, mm: string, ss: string)
    requires hh != [] && mm != [] && ss != []
    requires AllDigits(hh) && AllDigits(mm) && AllDigits(ss)
    ensures VttTimeToSeconds(hh + ":" + mm + ":" + ss)
         == Normal(Seconds(DigitsValue(hh), DigitsValue(mm), DigitsValue(ss), 0))
  {
    DigitsHaveNoSeparator(hh, ':');
    DigitsHaveNoSeparator(mm, ':');
    DigitsHaveNoSeparator(ss, ':');
    DigitsHaveNoSeparator(ss, '.');
    ReadsThreeFields(hh, mm, ss);
    SplitPlain(ss, '.');
    ParseIntOfDigits(hh);
    ParseIntOfDigits(mm);
    ParseIntOfDigits(ss);
    ZeroReadsAsZero();
    assert ReadFields(hh, mm, ss) == Seconds(DigitsValue(hh), DigitsValue(mm), DigitsValue(ss), 0);
  }

  lemma ZeroReadsAsZero()
    ensures ParseIntOrZero("0") == 0
  {
    ParseIntOfDigits("0");
  }

  /** Fields after the third colon-separated one are ignored. */
  lemma ExtraFieldsIgnored(a: string, b: string, c: string, tail: string)
    requires ':' !in a && ':' !in b && ':' !in c
    ensures VttTimeToSeconds(a + ":" + b + ":" + c + ":" + tail) == VttTimeToSeconds(a + ":" + b + ":" + c)
  {
    ThreeFields(a, b, c);
    var full := a + ":" + b + ":" + c + ":" + tail;
    var t3 := c + ([':'] + tail);
    var t2 := b + ([':'] + t3);
    assert full == a + ([':'] + t2);
    SplitCons(a, t2, ':');
    SplitCons(b, t3, ':');
    SplitCons(c, tail, ':');
    assert var fields := Split(full, ':'); |fields| >= 3 && fields[0] == a && fields[1] == b && fields[2] == c;
  }

  /** "00:00:05.5" is 5.005 seconds, not 5.5: the fraction is a count of thousandths. */
  lemma FractionIsThousandths()
    ensures VttTimeToSeconds("00" + ":" + "00" + ":" + "05" + "." + "5") == Normal(5.005)
  {
    FiveSecondsFiveThousandths();
    DigitTimestampIs("00", "00", "05", "5", 5.005);
  }

  /** The fields "00", "00", "05" and "5" make 5.005 seconds. */
  lemma FiveSecondsFiveThousandths()
    ensures Seconds(DigitsValue("00"), DigitsValue("00"), DigitsValue("05"), DigitsValue("5")) == 5.005
  {
    assert DigitsValue("05") == 5;
    assert DigitsValue("00") == 0;
    assert DigitsValue("5") == 5;
    assert Seconds(0, 0, 5, 5) == 5.005;
  }

  /** A comma is not a separator: in "HH:MM:SS,mmm" the seconds field reads
      only its leading digits and the thousandths after the comma are lost
      (so "00:01:05,250" reads as 65 seconds). */
  lemma CommaIsNotASeparator(hh: string, mm: string, ss: string, tail: string)
    requires hh != [] && mm != [] && ss != []
    requires AllDigits(hh) && AllDigits(mm) && AllDigits(ss)
    requires tail != [] && tail[0] == ',' && ':' !in tail && '.' !in tail
    ensures VttTimeToSeconds(hh + ":" + mm + ":" + ss + tail)
         == Normal(Seconds(DigitsValue(hh), DigitsValue(mm), DigitsValue(ss), 0))
  {
    DigitsHaveNoSeparator(hh, ':');
    DigitsHaveNoSeparator(mm, ':');
    DigitsHaveNoSeparator(ss, ':');
    DigitsHaveNoSeparator(ss, '.');
    var rest := ss + tail;
    assert hh + ":" + mm + ":" + ss + tail == hh + ":" + mm + ":" + rest;
    ReadsThreeFields(hh, mm, rest);
    SplitPlain(rest, '.');
    ParseIntOfDigits(hh);
    ParseIntOfDigits(mm);
    ParseIntOfDigitsThen(ss, tail);
    ZeroReadsAsZero();
  }

  /** Fields that `parseInt` reads as NaN count as 0, so a timestamp such as
      "bad:ti:me" reads as 0 rather than NaN or an exception. */
  lemma UnreadableFieldsAreZero(a: string, b: string, c: string)
    requires ':' !in a && ':' !in b && ':' !in c && '.' !in c
    requires ParseInt(a) == None && ParseInt(b) == None && ParseInt(c) == None
    ensures VttTimeToSeconds(a + ":" + b + ":" + c) == Normal(0.0)
  {
    ReadsThreeFields(a, b, c);
    SplitPlain(c, '.');
    ZeroReadsAsZero();
    assert ParseIntOrZero(a) == 0 && ParseIntOrZero(b) == 0 && ParseIntOrZero(c) == 0;
    SecondsOfZeros();
    assert ReadFields(a, b, c) == Seconds(0, 0, 0, 0);
  }

  lemma SecondsOfZeros()
    ensures Seconds(0, 0, 0, 0) == 0.0
  {
  }

  /** "bad", "ti" and "me" have no leading digits. */
  lemma BadTimeIsZero()
    ensures VttTimeToSeconds("bad" + ":" + "ti" + ":" + "me") == Normal(0.0)
  {
    UnreadableField("bad");
    UnreadableField("ti");
    UnreadableField("me");
    UnreadableFieldsAreZero("bad", "ti", "me");
  }

  /** A field that starts with neither white space, a sign nor a digit is
      read as NaN. */
  lemma UnreadableField(w: string)
    requires w != [] && !IsDigit(w[0]) && !IsWhiteSpace(w[0]) && w[0] != '+' && w[0] != '-'
    ensures ParseInt(w) == None
  {
    ParseIntNoDigits("", "", w);
    assert "" + "" + w == w;
  }

  /** Without a `.` in the third field, each of the three fields is read on
      its own and the thousandths are 0. */
  lemma FieldsWithoutFraction(a: string, b: string, c: string)
    requires ':' !in a && ':' !in b && ':' !in c && '.' !in c
    ensures VttTimeToSeconds(a + ":" + b + ":" + c)
         == Normal(Seconds(ParseIntOrZero(a), ParseIntOrZero(b), ParseIntOrZero(c), 0))
  {
    ReadsThreeFields(a, b, c);
    SplitPlain(c, '.');
    ZeroReadsAsZero();
  }

  /** `FieldsWithoutFraction` for a caller that already knows what
      `parseInt(_, 10) || 0` reads from each field. */
  lemma FieldsWithoutFractionAre(a: string, b: string, c: string, h: int, m: int, sec: int)
    requires ':' !in a && ':' !in b && ':' !in c && '.' !in c
    requires ParseIntOrZero(a) == h && ParseIntOrZero(b) == m && ParseIntOrZero(c) == sec
    ensures VttTimeToSeconds(a + ":" + b + ":" + c) == Normal(Seconds(h, m, sec, 0))
  {
    FieldsWithoutFraction(a, b, c);
  }

  /** A minus sign before the hours is read by `parseInt`, so the result can
      be negative: the hours count as `Signed("-", h)`, that is `-h`. */
  lemma SignedHours(hh: string, mm: string, ss: string)
    requires hh != [] && mm != [] && ss != []
    requires AllDigits(hh) && AllDigits(mm) && AllDigits(ss)
    ensures VttTimeToSeconds("-" + hh + ":" + mm + ":" + ss)
         == Normal(Seconds(Signed("-", DigitsValue(hh)), DigitsValue(mm), DigitsValue(ss), 0))
  {
    var neg := "-" + hh;
    DigitsHaveNoSeparator(hh, ':');
    DigitsHaveNoSeparator(mm, ':');
    DigitsHaveNoSeparator(ss, ':');
    DigitsHaveNoSeparator(ss, '.');
    assert ':' !in neg;
    ParseIntOfNegativeDigits(hh);
    ParseIntOfDigits(mm);
    ParseIntOfDigits(ss);
    FieldsWithoutFractionAre(neg, mm, ss, Signed("-", DigitsValue(hh)), DigitsValue(mm), DigitsValue(ss));
  }
}
