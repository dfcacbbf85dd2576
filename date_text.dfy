/** The text forms the modelled code reads and writes: `strftime('%Y-%m-%d')`,
    `strptime(s, '%Y-%m-%d')`, Python's `int(s)` on a decimal string and
    `str(n)`, and the code-point order in which strings are compared. */
module DateText {
  import opened Wrappers
  import opened CivilDate

  predicate IsDigit(c: char) {
    '0' <= c <= '9'
  }

  predicate AllDigits(s: string) {
    forall i :: 0 <= i < |s| ==> IsDigit(s[i])
  }

  function DigitValue(c: char): int
    requires IsDigit(c)
  {
    c as int - '0' as int
  }

  function DigitChar(n: int): (c: char)
    requires 0 <= n < 10
    ensures IsDigit(c) && DigitValue(c) == n
  {
    ('0' as int + n) as char
  }

  /** The number a string of decimal digits denotes. */
  function DigitsValue(s: string): nat
    requires AllDigits(s)
  {
    if s == [] then 0 else DigitsValue(s[..|s| - 1]) * 10 + DigitValue(s[|s| - 1])
  }

  function Pow10(w: nat): nat {
    if w == 0 then 1 else 10 * Pow10(w - 1)
  }

  /** `n` written with exactly `w` digits, padded with leading zeros. */
  function Pad(n: nat, w: nat): (s: string)
    ensures |s| == w && AllDigits(s)
  {
    if w == 0 then [] else Pad(n / 10, w - 1) + [DigitChar(n % 10)]
  }

  lemma {:induction false} PadValue(n: nat, w: nat)
    requires n < Pow10(w)
    ensures DigitsValue(Pad(n, w)) == n
  {
    if w > 0 {
      PadValue(n / 10, w - 1);
      var s := Pad(n, w);
      assert s[..|s| - 1] == Pad(n / 10, w - 1);
    }
  }

  // ---------------------------------------------------------------------
  // Code-point order of strings (`<=` on Python `str`, SPARQL on simple literals)

  predicate LexLe(a: string, b: string)
    decreases |a|
  {
    if a == [] then true
    else if b == [] then false
    else if a[0] < b[0] then true
    else if b[0] < a[0] then false
    else LexLe(a[1..], b[1..])
  }

  lemma {:induction false} LexLeReflexive(a: string)
    ensures LexLe(a, a)
    decreases |a|
  {
    if a != [] { LexLeReflexive(a[1..]); }
  }

  lemma {:induction false} LexLeAntisymmetric(a: string, b: string)
    requires LexLe(a, b) && LexLe(b, a)
    ensures a == b
    decreases |a|
  {
    if a != [] && b != [] {
      LexLeAntisymmetric(a[1..], b[1..]);
      assert a == [a[0]] + a[1..] && b == [b[0]] + b[1..];
    }
  }

  lemma {:induction false} LexLeTransitive(a: string, b: string, c: string)
    requires LexLe(a, b) && LexLe(b, c)
    ensures LexLe(a, c)
    decreases |a|
  {
    if a != [] && b != [] && c != [] && a[0] == b[0] && b[0] == c[0] {
      LexLeTransitive(a[1..], b[1..], c[1..]);
    }
  }

  lemma {:induction false} LexLeTotal(a: string, b: string)
    ensures LexLe(a, b) || LexLe(b, a)
    decreases |a|
  {
    if a != [] && b != [] && a[0] == b[0] {
      LexLeTotal(a[1..], b[1..]);
    }
  }

  /** Two strings split into equally long heads compare by the heads first,
      and by the tails when the heads agree. */
  lemma {:induction false} LexLeConcat(x: string, y: string, x': string, y': string)
    requires |x| == |x'|
    ensures LexLe(x + y, x' + y') == if x == x' then LexLe(y, y') else LexLe(x, x')
    decreases |x|
  {
    if x != [] {
      var a, b := x + y, x' + y';
      assert a[0] == x[0] && b[0] == x'[0];
      assert a[1..] == x[1..] + y;
      assert b[1..] == x'[1..] + y';
      LexLeConcat(x[1..], y, x'[1..], y');
      assert x == [x[0]] + x[1..] && x' == [x'[0]] + x'[1..];
    } else {
      assert x + y == y && x' + y' == y';
    }
  }

  lemma DivModOrder(n: nat, m: nat)
    ensures n <= m <==> n / 10 < m / 10 || (n / 10 == m / 10 && n % 10 <= m % 10)
  {
  }

  lemma DigitCharOrder(a: int, b: int)
    requires 0 <= a < 10 && 0 <= b < 10
    ensures LexLe([DigitChar(a)], [DigitChar(b)]) <==> a <= b
  {
    assert [DigitChar(a)][1..] == [];
  }

  /** Zero-padded numbers of one width order as text exactly as they order as numbers. */
  lemma {:induction false} PadOrder(n: nat, m: nat, w: nat)
    requires n < Pow10(w) && m < Pow10(w)
    ensures LexLe(Pad(n, w), Pad(m, w)) <==> n <= m
  {
    if w > 0 {
      var hn, hm := Pad(n / 10, w - 1), Pad(m / 10, w - 1);
      PadOrder(n / 10, m / 10, w - 1);
      LexLeConcat(hn, [DigitChar(n % 10)], hm, [DigitChar(m % 10)]);
      DigitCharOrder(n % 10, m % 10);
      DivModOrder(n, m);
      if hn == hm {
        PadInjective(n / 10, m / 10, w - 1);
      }
    }
  }

  // ---------------------------------------------------------------------
  // strftime('%Y-%m-%d')

  /** `date.strftime('%Y-%m-%d')`, the year written with four digits. */
  function Format(d: Date): (s: string)
    requires Valid(d)
    ensures |s| == 10 && s[4] == '-' && s[7] == '-'
  {
    Pad(d.year, 4) + ("-" + (Pad(d.month, 2) + ("-" + Pad(d.day, 2))))
  }

  lemma PadInjective(n: nat, m: nat, w: nat)
    requires n < Pow10(w) && m < Pow10(w) && Pad(n, w) == Pad(m, w)
    ensures n == m
  {
    PadValue(n, w);
    PadValue(m, w);
  }

  /** Two `Y-M-D` texts with fields of equal widths compare field by field. */
  lemma LexLeFields(y1: string, m1: string, a1: string, y2: string, m2: string, a2: string)
    requires |y1| == |y2| && |m1| == |m2|
    ensures LexLe(y1 + ("-" + (m1 + ("-" + a1))), y2 + ("-" + (m2 + ("-" + a2)))) ==
      if y1 != y2 then LexLe(y1, y2) else if m1 != m2 then LexLe(m1, m2) else LexLe(a1, a2)
  {
    LexLeConcat(y1, "-" + (m1 + ("-" + a1)), y2, "-" + (m2 + ("-" + a2)));
    LexLeConcat("-", m1 + ("-" + a1), "-", m2 + ("-" + a2));
    LexLeConcat(m1, "-" + a1, m2, "-" + a2);
    LexLeConcat("-", a1, "-", a2);
  }

  /** Formatted dates compare as text exactly as the dates compare field by field. */
  lemma FormatOrderFields(d1: Date, d2: Date)
    requires Valid(d1) && Valid(d2)
    ensures LexLe(Format(d1), Format(d2)) <==> Before(d1, d2) || d1 == d2
  {
    var y1, y2 := Pad(d1.year, 4), Pad(d2.year, 4);
    var m1, m2 := Pad(d1.month, 2), Pad(d2.month, 2);
    var a1, a2 := Pad(d1.day, 2), Pad(d2.day, 2);
    assert Pow10(2) == 100 && Pow10(4) == 10000;
    LexLeFields(y1, m1, a1, y2, m2, a2);
    PadOrder(d1.year, d2.year, 4);
    PadOrder(d1.month, d2.month, 2);
    PadOrder(d1.day, d2.day, 2);
    if y1 == y2 { PadInjective(d1.year, d2.year, 4); }
    if m1 == m2 { PadInjective(d1.month, d2.month, 2); }
    if a1 == a2 { PadInjective(d1.day, d2.day, 2); }
  }

  /** Formatted dates compare as text exactly as the dates compare in the
      calendar: the property the string comparison of the offering filter
      rests on. */
  lemma FormatOrder(d1: Date, d2: Date)
    requires Valid(d1) && Valid(d2)
    ensures LexLe(Format(d1), Format(d2)) <==> Ordinal(d1) <= Ordinal(d2)
  {
    FormatOrderFields(d1, d2);
    OrdinalOrder(d1, d2);
    OrdinalOrder(d2, d1);
  }

  // ---------------------------------------------------------------------
  // strptime(s, '%Y-%m-%d')

  /** Index of the first `c` in `s`, or `|s|` when there is none. */
  function IndexOf(s: string, c: char): (i: nat)
    ensures i <= |s| && (i < |s| ==> s[i] == c)
    ensures forall j :: 0 <= j < i ==> s[j] != c
  {
    if s == [] then 0 else if s[0] == c then 0 else 1 + IndexOf(s[1..], c)
  }

  /** What the `%m` directive accepts: `1[0-2]|0[1-9]|[1-9]`. */
  predicate IsMonthField(s: string) {
    (|s| == 1 && '1' <= s[0] <= '9')
    || (|s| == 2 && s[0] == '1' && '0' <= s[1] <= '2')
    || (|s| == 2 && s[0] == '0' && '1' <= s[1] <= '9')
  }

  /** What the `%d` directive accepts: `3[01]|[12]\d|0[1-9]|[1-9]| [1-9]`. */
  predicate IsDayField(s: string) {
    (|s| == 1 && '1' <= s[0] <= '9')
    || (|s| == 2 && s[0] == '3' && (s[1] == '0' || s[1] == '1'))
    || (|s| == 2 && (s[0] == '1' || s[0] == '2') && IsDigit(s[1]))
    || (|s| == 2 && s[0] == '0' && '1' <= s[1] <= '9')
    || (|s| == 2 && s[0] == ' ' && '1' <= s[1] <= '9')
  }

  /** The number in an accepted month or day field (a leading blank counts as nothing). */
  function FieldValue(s: string): (n: int)
    requires IsMonthField(s) || IsDayField(s)
    ensures IsMonthField(s) ==> 1 <= n <= 12
    ensures IsDayField(s) ==> 1 <= n <= 31
  {
    if |s| == 1 then DigitValue(s[0])
    else if s[0] == ' ' then DigitValue(s[1])
    else DigitValue(s[0]) * 10 + DigitValue(s[1])
  }

  /** Cuts `s` at its fifth character, which must be `-`, and at the next `-`:
      the year, month and day fields `strptime` matches its directives against. */
  function SplitFields(s: string): Option<(string, string, string)> {
    if |s| < 5 || s[4] != '-' then None
    else
      var rest := s[5..];
      var i := IndexOf(rest, '-');
      if i == |rest| then None else Some((s[..4], rest[..i], rest[i + 1..]))
  }

  /** The date named by the three matched fields: `None` for a field its
      directive does not accept, for year 0 or for a day past the end of its
      month. */
  function FieldsDate(ys: string, ms: string, ds: string): (r: Option<Date>)
    ensures r.Some? ==> Valid(r.value)
  {
    if !AllDigits(ys) || |ys| != 4 || !IsMonthField(ms) || !IsDayField(ds) then None
    else
      var y, m, d := DigitsValue(ys), FieldValue(ms), FieldValue(ds);
      assert y < 10000 by { DigitsBound(ys); assert Pow10(4) == 10000; }
      if y < 1 || d > DaysInMonth(y, m) then None
      else Some(Date(y, m, d))
  }

  /** `datetime.strptime(s, '%Y-%m-%d')`: four digits, `-`, a month field,
      `-`, a day field, nothing after; then a `ValueError` for year 0 or a day
      past the end of its month. */
  function ParseDate(s: string): (r: Result<Date>)
    ensures r.Ok? ==> Valid(r.value)
    ensures r.Err? ==> r.error == MalformedDate(s)
  {
    match SplitFields(s)
    case None => Err(MalformedDate(s))
    case Some((ys, ms, ds)) =>
      match FieldsDate(ys, ms, ds)
      case None => Err(MalformedDate(s))
      case Some(d) => Ok(d)
  }

  lemma {:induction false} DigitsBound(s: string)
    requires AllDigits(s)
    ensures DigitsValue(s) < Pow10(|s|)
  {
    if s != [] { DigitsBound(s[..|s| - 1]); }
  }

  lemma {:induction false} IndexOfAfter(x: string, c: char, y: string)
    requires forall j :: 0 <= j < |x| ==> x[j] != c
    ensures IndexOf(x + ([c] + y), c) == |x|
  {
    if x != [] {
      assert (x + ([c] + y))[1..] == x[1..] + ([c] + y);
      IndexOfAfter(x[1..], c, y);
    }
  }

  lemma SplitFieldsOf(y: string, m: string, a: string)
    requires |y| == 4 && forall j :: 0 <= j < |m| ==> m[j] != '-'
    ensures SplitFields(y + ("-" + (m + ("-" + a)))) == Some((y, m, a))
  {
    var s := y + ("-" + (m + ("-" + a)));
    assert s[4] == '-';
    assert s[..4] == y;
    var rest := s[5..];
    assert rest == m + ("-" + a);
    IndexOfAfter(m, '-', a);
    assert rest[..|m|] == m;
    assert rest[|m| + 1..] == a;
  }

  lemma Pad2(n: nat)
    requires n < 100
    ensures Pad(n, 2) == [DigitChar(n / 10), DigitChar(n % 10)]
  {
  }

  /** The padded fields of a valid date name that date. */
  lemma FieldsDateOfPad(d: Date)
    requires Valid(d)
    ensures FieldsDate(Pad(d.year, 4), Pad(d.month, 2), Pad(d.day, 2)) == Some(d)
  {
    var m, a := Pad(d.month, 2), Pad(d.day, 2);
    Pad2(d.month);
    Pad2(d.day);
    assert Pow10(4) == 10000;
    PadValue(d.year, 4);
    assert IsMonthField(m) && FieldValue(m) == d.month;
    assert IsDayField(a) && FieldValue(a) == d.day;
  }

  /** Parsing a formatted date gives the date back. */
  lemma ParseFormat(d: Date)
    requires Valid(d)
    ensures ParseDate(Format(d)) == Ok(d)
  {
    var y, m, a := Pad(d.year, 4), Pad(d.month, 2), Pad(d.day, 2);
    Pad2(d.month);
    SplitFieldsOf(y, m, a);
    FieldsDateOfPad(d);
  }

  /** Fields of the canonical widths are the padded forms of the date they name. */
  lemma FieldsCanonical(ys: string, ms: string, ds: string)
    requires FieldsDate(ys, ms, ds).Some?
    requires |ms| == 2 && |ds| == 2 && AllDigits(ms) && AllDigits(ds)
    ensures var d := FieldsDate(ys, ms, ds).value;
      Pad(d.year, 4) == ys && Pad(d.month, 2) == ms && Pad(d.day, 2) == ds
  {
    PadExact(ys);
    TwoDigitField(ms);
    TwoDigitField(ds);
  }

  /** A two-digit month or day field is the padded form of its value. */
  lemma TwoDigitField(t: string)
    requires |t| == 2 && AllDigits(t) && (IsMonthField(t) || IsDayField(t))
    ensures Pad(FieldValue(t), 2) == t
  {
    assert IsDigit(t[0]) && IsDigit(t[1]);
    var n := FieldValue(t);
    assert n == DigitValue(t[0]) * 10 + DigitValue(t[1]);
    Pad2(n);
    assert DigitChar(n / 10) == t[0] && DigitChar(n % 10) == t[1];
  }

  /** A string that parses and has the canonical shape (every field two or
      four digits) is exactly the formatted form of the date it parses to. */
  lemma FormatParse(s: string)
    requires ParseDate(s).Ok?
    requires |s| == 10 && AllDigits(s[..4]) && AllDigits(s[5..7]) && AllDigits(s[8..])
    ensures Format(ParseDate(s).value) == s
  {
    var ys, ms, ds := s[..4], s[5..7], s[8..];
    assert s == ys + ("-" + (ms + ("-" + ds)));
    assert ms[0] != '-' && ms[1] != '-';
    SplitFieldsOf(ys, ms, ds);
    FieldsCanonical(ys, ms, ds);
  }

  /** A digit string is the padded form of its own value. */
  lemma {:induction false} PadExact(s: string)
    requires AllDigits(s)
    ensures Pad(DigitsValue(s), |s|) == s
  {
    if s != [] {
      var init := s[..|s| - 1];
      PadExact(init);
      var v := DigitsValue(s);
      assert v / 10 == DigitsValue(init) && v % 10 == DigitValue(s[|s| - 1]);
      assert s == init + [s[|s| - 1]];
    }
  }

  // ---------------------------------------------------------------------
  // int(s) and str(n)

  predicate IsSpace(c: char) {
    c == ' ' || c == '\t' || c == '\n' || c == '\r' || c == '\U{B}' || c == '\U{C}'
  }

  function StripLeft(s: string): (r: string)
    ensures r == [] || !IsSpace(r[0])
  {
    if s != [] && IsSpace(s[0]) then StripLeft(s[1..]) else s
  }

  function StripRight(s: string): (r: string)
    ensures r == [] || !IsSpace(r[|r| - 1])
  {
    if s != [] && IsSpace(s[|s| - 1]) then StripRight(s[..|s| - 1]) else s
  }

  /** Decimal digits, single underscores allowed between two digits (`1_000`). */
  predicate IsDigitGroups(s: string) {
    && |s| > 0 && IsDigit(s[0]) && IsDigit(s[|s| - 1])
    && (forall i :: 0 <= i < |s| ==> IsDigit(s[i]) || s[i] == '_')
    && (forall i :: 0 <= i < |s| - 1 ==> !(s[i] == '_' && s[i + 1] == '_'))
  }

  function DropUnderscores(s: string): (r: string)
    requires forall i :: 0 <= i < |s| ==> IsDigit(s[i]) || s[i] == '_'
    ensures AllDigits(r)
  {
    if s == [] then [] else (if s[0] == '_' then [] else [s[0]]) + DropUnderscores(s[1..])
  }

  /** The value of digit groups, or `None` when `t` is not made of them. */
  function GroupsValue(t: string): Option<nat> {
    if IsDigitGroups(t) then Some(DigitsValue(DropUnderscores(t))) else None
  }

  /** `s` without its leading and trailing blanks. */
  function Strip(s: string): string {
    StripRight(StripLeft(s))
  }

  /** Python's `int(s)` for a `str` of ASCII text: surrounding ASCII
      blanks, an optional sign, then ASCII digit groups; any other such text
      is a `ValueError`.  Unicode digits and blanks, which `int` also
      accepts, are not modelled. */
  function ParseInt(s: string): (r: Result<int>)
    ensures r.Err? ==> r.error == NotAnInteger(s)
  {
    var t := Strip(s);
    var signed := t != [] && (t[0] == '+' || t[0] == '-');
    match GroupsValue(if signed then t[1..] else t)
    case None => Err(NotAnInteger(s))
    case Some(v) => Ok(if signed && t[0] == '-' then -(v as int) else v)
  }

  function NatToString(n: nat): (s: string)
    ensures s != [] && AllDigits(s)
  {
    if n < 10 then [DigitChar(n)] else NatToString(n / 10) + [DigitChar(n % 10)]
  }

  /** Python's `str(n)` for an `int`. */
  function IntToString(n: int): string {
    if n < 0 then "-" + NatToString(-n) else NatToString(n)
  }

  lemma {:induction false} NatToStringValue(n: nat)
    ensures DigitsValue(NatToString(n)) == n
  {
    if n >= 10 {
      NatToStringValue(n / 10);
      var s := NatToString(n);
      assert s[..|s| - 1] == NatToString(n / 10);
    }
  }

  lemma {:induction false} DropNoUnderscores(s: string)
    requires AllDigits(s)
    ensures DropUnderscores(s) == s
  {
    if s != [] {
      DropNoUnderscores(s[1..]);
      assert s == [s[0]] + s[1..];
    }
  }

  lemma DigitsAreGroups(s: string)
    requires s != [] && AllDigits(s)
    ensures GroupsValue(s) == Some(DigitsValue(s))
  {
    DropNoUnderscores(s);
  }

  /** A string with no blank at either end strips to itself. */
  lemma StripUnblanked(s: string)
    requires s != [] && !IsSpace(s[0]) && !IsSpace(s[|s| - 1])
    ensures Strip(s) == s
  {
    assert StripLeft(s) == s;
  }

  lemma ParseIntUnsigned(s: string, v: nat)
    requires s != [] && s[0] != '+' && s[0] != '-'
    requires Strip(s) == s && GroupsValue(s) == Some(v)
    ensures ParseInt(s) == Ok(v)
  {
  }

  lemma ParseIntMinus(s: string, v: nat)
    requires |s| > 1 && s[0] == '-'
    requires Strip(s) == s && GroupsValue(s[1..]) == Some(v)
    ensures ParseInt(s) == Ok(-(v as int))
  {
  }

  lemma ParseIntDigits(digits: string)
    requires digits != [] && AllDigits(digits)
    ensures ParseInt(digits) == Ok(DigitsValue(digits))
  {
    assert IsDigit(digits[0]) && IsDigit(digits[|digits| - 1]);
    StripUnblanked(digits);
    DigitsAreGroups(digits);
    ParseIntUnsigned(digits, DigitsValue(digits));
  }

  lemma ParseIntNegative(s: string)
    requires |s| > 1 && s[0] == '-' && AllDigits(s[1..])
    ensures ParseInt(s) == Ok(-(DigitsValue(s[1..]) as int))
  {
    var digits := s[1..];
    assert IsDigit(digits[|digits| - 1]);
    StripUnblanked(s);
    DigitsAreGroups(digits);
    ParseIntMinus(s, DigitsValue(digits));
  }

  /** `int(str(n)) == n`. */
  lemma ParseIntOfIntToString(n: int)
    ensures ParseInt(IntToString(n)) == Ok(n)
  {
    var v: nat := if n < 0 then -n else n;
    NatToStringValue(v);
    if n < 0 {
      var s := IntToString(n);
      assert s[1..] == NatToString(v);
      ParseIntNegative(s);
    } else {
      ParseIntDigits(NatToString(v));
    }
  }
}
