/**
 * The telemetry line UART_Thread sends once per osDelay(3000),
 * `TEMP:<t>|MOIST:<m>|LIGHT:<l>\n` with `%d` decimals, and a reader that
 * splits it on `|` and `:` to get the three readings back.
 */
module Telemetry {
  import opened Wrappers

  predicate IsDigit(c: char) {
    '0' <= c <= '9'
  }

  predicate AllDigits(s: string) {
    forall i :: 0 <= i < |s| ==> IsDigit(s[i])
  }

  function DigitChar(d: nat): (c: char)
    requires d < 10
    ensures IsDigit(c)
  {
    ['0', '1', '2', '3', '4', '5', '6', '7', '8', '9'][d]
  }

  function DigitValue(c: char): (d: nat)
    requires IsDigit(c)
    ensures d < 10
  {
    (c as int - '0' as int) as nat
  }

  lemma DigitRoundTrip(d: nat)
    requires d < 10
    ensures DigitValue(DigitChar(d)) == d
  {
  }

  /** The other direction: DigitChar undoes DigitValue, so the two are inverse. */
  lemma DigitValueRoundTrip(c: char)
    requires IsDigit(c)
    ensures DigitChar(DigitValue(c)) == c
  {
  }

  /** `%d` of a non-negative value: shortest decimal, no sign, no padding. */
  function Decimal(n: nat): (s: string)
    ensures |s| >= 1 && AllDigits(s)
    ensures |s| > 1 ==> s[0] != '0'
  {
    if n < 10 then [DigitChar(n)] else Decimal(n / 10) + [DigitChar(n % 10)]
  }

  /** The value of a string of decimal digits. */
  function DecimalValue(s: string): nat
    requires AllDigits(s)
  {
    if s == [] then 0 else DecimalValue(s[..|s| - 1]) * 10 + DigitValue(s[|s| - 1])
  }

  lemma {:induction false} DecimalRoundTrip(n: nat)
    ensures DecimalValue(Decimal(n)) == n
  {
    var s := Decimal(n);
    if n < 10 {
      DigitRoundTrip(n);
    } else {
      assert s[..|s| - 1] == Decimal(n / 10);
      DecimalRoundTrip(n / 10);
      DigitRoundTrip(n % 10);
    }
  }

  /** A 12-bit reading prints in at most four digits. */
  lemma {:induction false} DecimalLength(n: nat)
    requires n <= 4095
    ensures |Decimal(n)| <= 4
  {
    if n >= 10 {
      assert |Decimal(n)| == |Decimal(n / 10)| + 1;
      if n / 10 >= 10 {
        assert |Decimal(n / 10)| == |Decimal(n / 100)| + 1;
        if n / 100 >= 10 {
          assert |Decimal(n / 100)| == |Decimal(n / 1000)| + 1;
          assert n / 1000 < 10;
        }
      }
    }
  }

  /** sprintf(buffer, "TEMP:%d|MOIST:%d|LIGHT:%d\n", temp, moist, light). */
  function TelemetryLine(temp: nat, moist: nat, light: nat): string {
    Field("TEMP", temp) + "|" + Field("MOIST", moist) + "|" + Field("LIGHT", light) + "\n"
  }

  /** One `name:value` field of the line. */
  function Field(name: string, n: nat): string {
    name + ":" + Decimal(n)
  }

  /** For 12-bit readings the line, with its terminating NUL, fits UART_Thread's 64-byte buffer. */
  lemma TelemetryLineFitsBuffer(temp: nat, moist: nat, light: nat)
    requires temp <= 4095 && moist <= 4095 && light <= 4095
    ensures |TelemetryLine(temp, moist, light)| <= 32
    ensures |TelemetryLine(temp, moist, light)| + 1 <= 64
  {
    DecimalLength(temp);
    DecimalLength(moist);
    DecimalLength(light);
  }

  /** Position of the first `sep` in `s`, or |s| when there is none. */
  function IndexOf(s: string, sep: char): (i: nat)
    ensures i <= |s|
    ensures i < |s| ==> s[i] == sep
    ensures forall j :: 0 <= j < i ==> s[j] != sep
  {
    if s == [] then 0 else if s[0] == sep then 0 else 1 + IndexOf(s[1..], sep)
  }

  /** The pieces of `s` between occurrences of `sep`. */
  function Split(s: string, sep: char): (parts: seq<string>)
    ensures |parts| >= 1
    decreases |s|
  {
    var i := IndexOf(s, sep);
    if i == |s| then [s] else [s[..i]] + Split(s[i + 1..], sep)
  }

  lemma SplitNoSeparator(s: string, sep: char)
    requires sep !in s
    ensures Split(s, sep) == [s]
  {
    assert IndexOf(s, sep) == |s|;
  }

  lemma SplitFirst(a: string, sep: char, b: string)
    requires sep !in a
    ensures Split(a + [sep] + b, sep) == [a] + Split(b, sep)
  {
    var s := a + [sep] + b;
    assert s[|a|] == sep;
    var i := IndexOf(s, sep);
    assert i == |a|;
    assert s[..i] == a;
    assert s[i + 1..] == b;
  }

  /** `name:value` with a decimal value. */
  function ParseField(field: string, name: string): Option<nat> {
    var parts := Split(field, ':');
    if |parts| == 2 && parts[0] == name && |parts[1]| > 0 && AllDigits(parts[1]) then
      Some(DecimalValue(parts[1]))
    else
      None
  }

  /** Read a telemetry line back: drop the newline, split on `|`, then each field on `:`. */
  function ParseTelemetry(line: string): Option<(nat, nat, nat)> {
    if |line| == 0 || line[|line| - 1] != '\n' then None
    else
      var fields := Split(line[..|line| - 1], '|');
      if |fields| != 3 then None
      else
        match (ParseField(fields[0], "TEMP"), ParseField(fields[1], "MOIST"), ParseField(fields[2], "LIGHT"))
        case (Some(t), Some(m), Some(l)) => Some((t, m, l))
        case _ => None
  }

  lemma DecimalHasNoSeparators(n: nat)
    ensures ':' !in Decimal(n) && '|' !in Decimal(n) && '\n' !in Decimal(n)
  {
    var s := Decimal(n);
    forall i | 0 <= i < |s| ensures s[i] != ':' && s[i] != '|' && s[i] != '\n' {
      assert IsDigit(s[i]);
    }
  }

  lemma ParseFieldOf(name: string, n: nat)
    requires ':' !in name
    ensures ParseField(Field(name, n), name) == Some(n)
  {
    DecimalHasNoSeparators(n);
    SplitFirst(name, ':', Decimal(n));
    SplitNoSeparator(Decimal(n), ':');
    DecimalRoundTrip(n);
  }

  lemma FieldHasNoBar(name: string, n: nat)
    requires '|' !in name
    ensures '|' !in Field(name, n)
  {
    DecimalHasNoSeparators(n);
    var f := Field(name, n);
    forall i | 0 <= i < |f| ensures f[i] != '|' {
      if i > |name| {
        assert f[i] == Decimal(n)[i - |name| - 1];
      }
    }
  }

  lemma SplitThree(a: string, b: string, c: string, sep: char)
    requires sep !in a && sep !in b && sep !in c
    ensures Split(a + [sep] + b + [sep] + c, sep) == [a, b, c]
  {
    var bc := b + [sep] + c;
    SplitNoSeparator(c, sep);
    SplitFirst(b, sep, c);
    assert Split(bc, sep) == [b, c];
    assert a + [sep] + b + [sep] + c == a + [sep] + bc;
    SplitFirst(a, sep, bc);
  }


  /** A line made of three `|`-free fields that parse, and a newline, parses to their values. */
  lemma ParseJoinedFields(ft: string, fm: string, fl: string, t: nat, m: nat, l: nat)
    requires '|' !in ft && '|' !in fm && '|' !in fl
    requires ParseField(ft, "TEMP") == Some(t) && ParseField(fm, "MOIST") == Some(m) && ParseField(fl, "LIGHT") == Some(l)
    ensures ParseTelemetry(ft + "|" + fm + "|" + fl + "\n") == Some((t, m, l))
  {
    var line := ft + "|" + fm + "|" + fl + "\n";
    assert line[..|line| - 1] == ft + ['|'] + fm + ['|'] + fl;
    SplitThree(ft, fm, fl, '|');
  }

  /** Parsing a formatted line recovers exactly the three readings. */
  lemma TelemetryRoundTrip(temp: nat, moist: nat, light: nat)
    ensures ParseTelemetry(TelemetryLine(temp, moist, light)) == Some((temp, moist, light))
  {
    FieldHasNoBar("TEMP", temp);
    FieldHasNoBar("MOIST", moist);
    FieldHasNoBar("LIGHT", light);
    ParseFieldOf("TEMP", temp);
    ParseFieldOf("MOIST", moist);
    ParseFieldOf("LIGHT", light);
    ParseJoinedFields(Field("TEMP", temp), Field("MOIST", moist), Field("LIGHT", light), temp, moist, light);
  }

}
