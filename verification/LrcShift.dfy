/** Shifting the timestamps of LRC lyrics. Times are counted in units of a
    stamp's own last digit; offsets are exact reals where the program has floats. */
module LrcShift {
  import opened Prelude
  import opened LrcText

  /** Decimal places of a stamp. */
  type Places = d: nat | d <= 3

  function Pow10(d: Places): (p: nat)
    ensures p >= 1
  {
    if d == 0 then 1 else if d == 1 then 10 else if d == 2 then 100 else 1000
  }

  // ---- Digits ----

  function DigitOf(n: nat): char
    requires n < 10
  {
    '0' + n as char
  }

  function ValueOf(c: char): (v: nat)
    requires IsDigit(c)
    ensures v < 10 && DigitOf(v) == c
  {
    (c - '0') as nat
  }

  function Num(s: string): nat
    requires AllDigits(s)
  {
    if s == "" then 0 else Num(s[..|s| - 1]) * 10 + ValueOf(s[|s| - 1])
  }

  /** Decimal digits, padded with zeros to at least the given width. */
  function Pad(n: nat, width: nat): (s: string)
    ensures AllDigits(s) && |s| >= width && |s| >= 1
    decreases n + width
  {
    if n < 10 && width <= 1 then [DigitOf(n)]
    else Pad(n / 10, if width > 0 then width - 1 else 0) + [DigitOf(n % 10)]
  }

  lemma {:induction false} NumOfPad(n: nat, width: nat)
    ensures Num(Pad(n, width)) == n
    decreases n + width
  {
    if !(n < 10 && width <= 1) {
      NumOfPad(n / 10, if width > 0 then width - 1 else 0);
    }
  }

  lemma {:induction false} PadWidth(n: nat, width: Places)
    requires width >= 1 && n < Pow10(width)
    ensures |Pad(n, width)| == width
  {
    if width > 1 { PadWidth(n / 10, width - 1); }
  }

  lemma {:induction false} NumBound(s: string)
    requires AllDigits(s) && |s| <= 3
    ensures Num(s) < Pow10(|s|)
  {
    if s != "" { NumBound(s[..|s| - 1]); }
  }

  lemma {:induction false} PadOfNum(s: string)
    requires AllDigits(s) && s != ""
    ensures Pad(Num(s), |s|) == s
  {
    var front, v := s[..|s| - 1], ValueOf(s[|s| - 1]);
    assert s == front + [DigitOf(v)];
    assert Num(s) == Num(front) * 10 + v;
    if front != "" {
      PadOfNum(front);
      PadStep(Num(front), v, |front|);
    }
  }

  lemma PadStep(n: nat, v: nat, width: nat)
    requires v < 10 && width >= 1
    ensures Pad(n * 10 + v, width + 1) == Pad(n, width) + [DigitOf(v)]
  {
    assert (n * 10 + v) / 10 == n && (n * 10 + v) % 10 == v;
  }

  /** Minutes take two digits, or three when there are that many. */
  lemma MinuteWidth(n: nat)
    requires n < 1000
    ensures |Pad(n, 2)| == if n < 100 then 2 else 3
    ensures n >= 100 ==> Pad(n, 2) == Pad(n, 3) && Pad(n, 2)[0] != '0'
  {
    if n < 100 {
      PadWidth(n, 2);
    } else {
      assert Pad(n, 2) == Pad(n / 10, 1) + [DigitOf(n % 10)] && Pad(n, 3) == Pad(n / 10, 2) + [DigitOf(n % 10)];
      assert Pad(n / 10, 1) == Pad(n / 100, 0) + [DigitOf(n / 10 % 10)];
      assert Pad(n / 10, 2) == Pad(n / 100, 1) + [DigitOf(n / 10 % 10)];
    }
  }

  // ---- Stamps ----

  datatype Stamp = Stamp(mins: nat, secs: nat, frac: nat, digits: Places)

  lemma RunIsDigits(s: string, k: nat)
    requires k <= Run(s)
    ensures AllDigits(s[..k])
  {
    assert forall c :: c in s[..k] ==> c in s[..Run(s)];
  }

  lemma StampParts(raw: string)
    requires IsStamp(raw)
    ensures var n := Run(raw[1..]);
            && 1 <= n <= 3 && n + 5 <= |raw| && raw[n + 1] == ':'
            && AllDigits(raw[1..n + 1]) && AllDigits(raw[n + 2..n + 4])
            && (|raw| == n + 5 || (n + 7 <= |raw| <= n + 9 && raw[n + 4] == '.' && AllDigits(raw[n + 5..|raw| - 1])))
            && raw[0] == '[' && raw[|raw| - 1] == ']'
  {
    var n := Run(raw[1..]);
    assert raw[1..][..n] == raw[1..n + 1];
    RunIsDigits(raw[n + 2..], 2);
    assert raw[n + 2..][..2] == raw[n + 2..n + 4];
    if |raw| != n + 5 {
      var f := Run(raw[n + 5..]);
      assert raw[n + 5..][..f] == raw[n + 5..|raw| - 1];
    }
  }

  function FieldsOf(raw: string): Stamp
    requires IsStamp(raw)
  {
    var n := Run(raw[1..]);
    StampParts(raw);
    if |raw| == n + 5 then Stamp(Num(raw[1..n + 1]), Num(raw[n + 2..n + 4]), 0, 0)
    else Stamp(Num(raw[1..n + 1]), Num(raw[n + 2..n + 4]), Num(raw[n + 5..|raw| - 1]), |raw| - n - 6)
  }

  function Print(st: Stamp): string {
    "[" + Pad(st.mins, 2) + ":" + Pad(st.secs, 2) + End(st)
  }

  function End(st: Stamp): string {
    if st.digits == 0 then "]" else "." + Pad(st.frac, st.digits) + "]"
  }

  predicate InForm(st: Stamp) {
    st.mins < 1000 && st.secs < 100 && st.frac < Pow10(st.digits)
  }

  lemma {:induction false} RunOfDigits(s: string, v: string)
    requires AllDigits(s) && (v == "" || !IsDigit(v[0]))
    ensures Run(s + v) == |s|
  {
    if s == "" {
      assert s + v == v;
    } else {
      assert (s + v)[1..] == s[1..] + v && (s + v)[0] == s[0] && s[0] in s;
      RunOfDigits(s[1..], v);
    }
  }

  lemma Cut(a: string, b: string, c: string)
    ensures (a + b + c)[|a|..] == b + c && (a + b + c)[|a|..|a| + |b|] == b
  {
  }

  /** Where the parts of a printed stamp lie. */
  lemma Layout(m: string, c: string, end: string)
    requires AllDigits(m) && 1 <= |m| <= 3 && AllDigits(c) && |c| == 2 && end != "" && !IsDigit(end[0])
    ensures var raw := "[" + m + ":" + c + end;
            && Run(raw[1..]) == |m| && raw[1..|m| + 1] == m && At(raw, |m| + 1, ':')
            && Run(raw[|m| + 2..]) == 2 && raw[|m| + 2..|m| + 4] == c && raw[|m| + 4..] == end
  {
    MinutesLayout(m, ":" + c + end);
    SecondsLayout("[" + m + ":", c, end);
    SameText(m, c, end);
  }

  lemma SameText(m: string, c: string, end: string)
    ensures "[" + m + ":" + c + end == "[" + m + (":" + c + end)
    ensures "[" + m + ":" + c + end == ("[" + m + ":") + c + end
  {
  }

  lemma MinutesLayout(m: string, rest: string)
    requires AllDigits(m) && rest != "" && !IsDigit(rest[0])
    ensures var raw := "[" + m + rest;
            Run(raw[1..]) == |m| && raw[1..|m| + 1] == m && At(raw, |m| + 1, rest[0])
  {
    Cut("[", m, rest);
    RunOfDigits(m, rest);
  }

  lemma SecondsLayout(head: string, c: string, end: string)
    requires AllDigits(c) && end != "" && !IsDigit(end[0])
    ensures var raw := head + c + end;
            && Run(raw[|head|..]) == |c| && raw[|head|..|head| + |c|] == c && raw[|head| + |c|..] == end
  {
    Cut(head, c, end);
    RunOfDigits(c, end);
  }

  lemma EndLayout(raw: string, at: nat, f: string)
    requires at <= |raw| && raw[at..] == "." + f + "]" && AllDigits(f)
    ensures |raw| == at + |f| + 2 && At(raw, at, '.') && Run(raw[at + 1..]) == |f| && At(raw, at + 1 + |f|, ']')
    ensures raw[at + 1..|raw| - 1] == f
  {
    assert raw[at..][1..] == raw[at + 1..];
    assert ("." + f + "]")[1..] == f + "]";
    RunOfDigits(f, "]");
    assert raw[at..][|f| + 1] == raw[at + 1 + |f|];
  }

  lemma FieldsPlain(raw: string, n: nat)
    requires 1 <= n <= 3 && |raw| == n + 5 && raw[0] == '[' && Run(raw[1..]) == n && At(raw, n + 1, ':')
    requires Run(raw[n + 2..]) == 2 && At(raw, n + 4, ']') && AllDigits(raw[1..n + 1]) && AllDigits(raw[n + 2..n + 4])
    ensures IsStamp(raw) && FieldsOf(raw) == Stamp(Num(raw[1..n + 1]), Num(raw[n + 2..n + 4]), 0, 0)
  {
  }

  lemma PointIsStamp(raw: string, n: nat, f: nat)
    requires 1 <= n <= 3 && 1 <= f <= 3 && |raw| == n + 6 + f && raw[0] == '['
    requires Run(raw[1..]) == n && At(raw, n + 1, ':') && Run(raw[n + 2..]) == 2 && At(raw, n + 4, '.')
    requires Run(raw[n + 5..]) == f && At(raw, n + 5 + f, ']')
    ensures IsStamp(raw)
  {
    assert TailLen(raw, n) == n + 6 + f;
  }

  lemma FieldsPoint(raw: string, n: nat, f: string)
    requires 1 <= n <= 3 && 1 <= |f| <= 3 && AllDigits(f) && |raw| == n + 6 + |f| && raw[0] == '['
    requires Run(raw[1..]) == n && At(raw, n + 1, ':') && Run(raw[n + 2..]) == 2 && At(raw, n + 4, '.')
    requires Run(raw[n + 5..]) == |f| && At(raw, n + 5 + |f|, ']') && raw[n + 5..|raw| - 1] == f
    requires AllDigits(raw[1..n + 1]) && AllDigits(raw[n + 2..n + 4])
    ensures IsStamp(raw) && FieldsOf(raw) == Stamp(Num(raw[1..n + 1]), Num(raw[n + 2..n + 4]), Num(f), |f|)
  {
    PointIsStamp(raw, n, |f|);
  }

  lemma PlainReadsBack(m: string, c: string)
    requires AllDigits(m) && 1 <= |m| <= 3 && AllDigits(c) && |c| == 2
    ensures var raw := "[" + m + ":" + c + "]";
            IsStamp(raw) && FieldsOf(raw) == Stamp(Num(m), Num(c), 0, 0)
  {
    var raw := "[" + m + ":" + c + "]";
    Layout(m, c, "]");
    assert raw[|m| + 4..][0] == raw[|m| + 4];
    FieldsPlain(raw, |m|);
  }

  lemma PointReadsBack(m: string, c: string, f: string)
    requires AllDigits(m) && 1 <= |m| <= 3 && AllDigits(c) && |c| == 2 && AllDigits(f) && 1 <= |f| <= 3
    ensures var raw := "[" + m + ":" + c + ("." + f + "]");
            IsStamp(raw) && FieldsOf(raw) == Stamp(Num(m), Num(c), Num(f), |f|)
  {
    var raw := "[" + m + ":" + c + ("." + f + "]");
    Layout(m, c, "." + f + "]");
    EndLayout(raw, |m| + 4, f);
    FieldsPoint(raw, |m|, f);
  }

  /** A printed stamp is recognised, and its fields are read back. */
  lemma PrintReadsBack(st: Stamp)
    requires InForm(st)
    ensures IsStamp(Print(st)) && FieldsOf(Print(st)) == st
  {
    MinuteWidth(st.mins);
    PadWidth(st.secs, 2);
    NumOfPad(st.mins, 2);
    NumOfPad(st.secs, 2);
    if st.digits == 0 {
      PlainReadsBack(Pad(st.mins, 2), Pad(st.secs, 2));
    } else {
      PadWidth(st.frac, st.digits);
      NumOfPad(st.frac, st.digits);
      PointReadsBack(Pad(st.mins, 2), Pad(st.secs, 2), Pad(st.frac, st.digits));
    }
  }

  lemma FieldsInForm(raw: string)
    requires IsStamp(raw)
    ensures InForm(FieldsOf(raw))
  {
    var n := Run(raw[1..]);
    StampParts(raw);
    NumBound(raw[1..n + 1]);
    NumBound(raw[n + 2..n + 4]);
    if |raw| != n + 5 { NumBound(raw[n + 5..|raw| - 1]); }
  }

  // ---- Time arithmetic ----

  function Units(st: Stamp): nat {
    var secs := st.mins * 60 + st.secs;
    InUnits(secs, st.digits) + st.frac
  }

  /** A number of seconds in units of the last place. */
  function InUnits(secs: nat, digits: Places): nat {
    if digits == 0 then secs else if digits == 1 then secs * 10 else if digits == 2 then secs * 100 else secs * 1000
  }

  function FromUnits(u: nat, digits: Places): Stamp {
    var secs := if digits == 0 then u else if digits == 1 then u / 10 else if digits == 2 then u / 100 else u / 1000;
    Stamp(secs / 60, secs % 60, u - InUnits(secs, digits), digits)
  }

  function Scaled(x: real, digits: Places): real {
    if digits == 0 then x else if digits == 1 then x * 10.0 else if digits == 2 then x * 100.0 else x * 1000.0
  }

  function Seconds(st: Stamp): real {
    (st.mins * 60 + st.secs) as real + Fraction(st.frac, st.digits)
  }

  function Fraction(frac: nat, digits: Places): real {
    var f := frac as real;
    if digits == 0 then f else if digits == 1 then f / 10.0 else if digits == 2 then f / 100.0 else f / 1000.0
  }

  /** Python rounds halves to the even neighbour. */
  function RoundHalfEven(x: real): (r: int)
    ensures r as real - 0.5 <= x <= r as real + 0.5
    ensures r as real - 0.5 == x || x == r as real + 0.5 ==> r % 2 == 0
  {
    var f := x.Floor;
    if x - f as real < 0.5 then f
    else if x - f as real > 0.5 then f + 1
    else if f % 2 == 0 then f
    else f + 1
  }

  /** The shifted time in units: offset added, stopped at zero, rounded to the
      stamp's own precision. */
  function ShiftedUnits(st: Stamp, offset: real): nat {
    RoundHalfEven(Scaled(Max(0.0, Seconds(st) + offset), st.digits))
  }

  function Shifted(st: Stamp, offset: real): Stamp {
    FromUnits(ShiftedUnits(st, offset), st.digits)
  }

  lemma UnitsAreSeconds(st: Stamp)
    ensures Scaled(Seconds(st), st.digits) == Units(st) as real
  {
  }

  lemma FromUnitsUnits(u: nat, digits: Places)
    ensures Units(FromUnits(u, digits)) == u
    ensures FromUnits(u, digits).secs < 60 && FromUnits(u, digits).frac < Pow10(digits)
  {
  }

  lemma UnitsFromUnits(st: Stamp)
    requires st.secs < 60 && st.frac < Pow10(st.digits)
    ensures FromUnits(Units(st), st.digits) == st
  {
    var t := st.mins * 60 + st.secs;
    assert t / 60 == st.mins && t % 60 == st.secs;
    assert st.digits == 1 ==> (t * 10 + st.frac) / 10 == t;
    assert st.digits == 2 ==> (t * 100 + st.frac) / 100 == t;
    assert st.digits == 3 ==> (t * 1000 + st.frac) / 1000 == t;
  }

  /** The offset is a whole number of units. */
  predicate Whole(offset: real, digits: Places) {
    Scaled(offset, digits).Floor as real == Scaled(offset, digits)
  }

  function OffsetUnits(offset: real, digits: Places): int {
    Scaled(offset, digits).Floor
  }

  /** A shift by a whole number of units is exact, up to the stop at zero. */
  lemma WholeShiftIsExact(st: Stamp, offset: real)
    requires Whole(offset, st.digits)
    ensures var u := Units(st) + OffsetUnits(offset, st.digits);
            ShiftedUnits(st, offset) == if u < 0 then 0 else u
  {
    UnitsAreSeconds(st);
  }

  lemma WholeSum(a: real, b: real, d: Places)
    requires Whole(a, d) && Whole(b, d)
    ensures Whole(a + b, d) && OffsetUnits(a + b, d) == OffsetUnits(a, d) + OffsetUnits(b, d)
  {
    var x, y := Scaled(a, d), Scaled(b, d);
    assert Scaled(a + b, d) == x + y;
    assert x + y == (x.Floor + y.Floor) as real;
  }

  /** Order among stamps of one precision survives any shift, even clamping. */
  lemma ShiftKeepsOrder(s: Stamp, t: Stamp, offset: real)
    requires s.digits == t.digits && Units(s) <= Units(t)
    ensures Units(Shifted(s, offset)) <= Units(Shifted(t, offset))
  {
    UnitsAreSeconds(s);
    UnitsAreSeconds(t);
    RoundingIsMonotone(Scaled(Max(0.0, Seconds(s) + offset), s.digits),
                       Scaled(Max(0.0, Seconds(t) + offset), t.digits));
    FromUnitsUnits(ShiftedUnits(s, offset), s.digits);
    FromUnitsUnits(ShiftedUnits(t, offset), t.digits);
  }

  lemma RoundingIsMonotone(x: real, y: real)
    requires x <= y
    ensures RoundHalfEven(x) <= RoundHalfEven(y)
  {
  }

  /** The printed time is within half a unit of the exact one. */
  lemma ShiftIsAccurate(st: Stamp, offset: real)
    ensures var exact := Scaled(Max(0.0, Seconds(st) + offset), st.digits);
            -0.5 <= Units(Shifted(st, offset)) as real - exact <= 0.5
  {
    FromUnitsUnits(ShiftedUnits(st, offset), st.digits);
  }

  // ---- Lyrics ----

  /** What the substitution puts for a stamp. */
  function ShiftStamp(raw: string, offset: real): string {
    if IsStamp(raw) then Print(Shifted(FieldsOf(raw), offset)) else raw
  }

  function Repl(offset: real): string -> string {
    raw => ShiftStamp(raw, offset)
  }

  function ShiftLrc(text: string, offset: real): string {
    Sub(text, Repl(offset))
  }

  /** The stamp would not be pushed below zero. */
  predicate Unclamped(raw: string, offset: real)
    requires IsStamp(raw)
  {
    Units(FieldsOf(raw)) + OffsetUnits(offset, FieldsOf(raw).digits) >= 0
  }

  /** The shifted stamp stays below a thousand minutes. */
  predicate InRange(raw: string, offset: real)
    requires IsStamp(raw)
  {
    Shifted(FieldsOf(raw), offset).mins < 1000
  }

  /** The text is a stamp, printed as its fields print. */
  predicate Reads(raw: string, st: Stamp) {
    IsStamp(raw) && FieldsOf(raw) == st && raw == Print(st)
  }

  lemma SameTextIff(r: string, a: Stamp, s: string, b: Stamp)
    requires Reads(r, a) && Reads(s, b)
    ensures r == s <==> a == b
  {
  }

  lemma ReplIsStamp(raw: string, offset: real)
    requires IsStamp(raw) && InRange(raw, offset)
    ensures Reads(ShiftStamp(raw, offset), Shifted(FieldsOf(raw), offset))
  {
    FieldsInForm(raw);
    FromUnitsUnits(ShiftedUnits(FieldsOf(raw), offset), FieldsOf(raw).digits);
    PrintReadsBack(Shifted(FieldsOf(raw), offset));
  }

  lemma LongMinutes(n: nat)
    requires n >= 1000
    ensures |Pad(n, 2)| >= 4
  {
    NumOfPad(n, 2);
    if |Pad(n, 2)| <= 3 { NumBound(Pad(n, 2)); }
  }

  /** A thousand minutes print as four digits, which no stamp has. */
  lemma LongIsNoStamp(st: Stamp)
    requires st.mins >= 1000
    ensures !IsStamp(Print(st))
  {
    var m, rest := Pad(st.mins, 2), ":" + Pad(st.secs, 2) + End(st);
    LongMinutes(st.mins);
    assert Print(st)[1..] == m + rest;
    RunOfDigits(m, rest);
  }

  lemma StampStaysIff(raw: string, offset: real)
    requires IsStamp(raw)
    ensures IsStamp(ShiftStamp(raw, offset)) <==> InRange(raw, offset)
  {
    if InRange(raw, offset) {
      ReplIsStamp(raw, offset);
    } else {
      LongIsNoStamp(Shifted(FieldsOf(raw), offset));
    }
  }

  /** A shift touches nothing but the stamps: the text is cut up, each stamp is
      replaced by its shifted form, and the pieces are put together again. The
      result has its stamps in the same places exactly when none of them is
      shifted to a thousand minutes or more. */
  lemma ShiftKeepsText(text: string, offset: real)
    ensures ShiftLrc(text, offset) == Text(Replaced(Lex(text), Repl(offset)))
    ensures Lex(ShiftLrc(text, offset)) == Replaced(Lex(text), Repl(offset))
            <==> forall t :: t in Lex(text) && t.Time? && IsStamp(t.raw) ==> InRange(t.raw, offset)
  {
    SubIsTokenwise(text, Repl(offset));
    TextKeptIff(text, Repl(offset));
    LexFindsStamps(text);
    forall t | t in Lex(text) && t.Time? ensures IsStamp(Repl(offset)(t.raw)) <==> InRange(t.raw, offset) {
      StampStaysIff(t.raw, offset);
    }
  }

  const LAST := Stamp(999, 59, 0, 0)

  lemma LastReads()
    ensures Reads("[999:59]", LAST)
  {
    NumOfPad(999, 3);
    NumOfPad(59, 2);
    LastDigits();
    PlainReadsBack("999", "59");
    assert "[" + "999" + ":" + "59" + "]" == "[999:59]";
    assert Print(LAST) == "[" + Pad(999, 2) + ":" + Pad(59, 2) + "]";
  }

  lemma LastDigits()
    ensures Pad(999, 3) == Pad(999, 2) == "999" && Pad(59, 2) == "59"
    ensures Pad(1000, 2) == "1000" && Pad(0, 2) == "00"
  {
  }

  lemma LastShifted()
    ensures Shifted(LAST, 1.0) == Stamp(1000, 0, 0, 0)
  {
    assert Scaled(1.0, 0) == 1.0 && Units(LAST) == 59999;
    WholeShiftIsExact(LAST, 1.0);
  }

  lemma LastPrints()
    ensures Print(Stamp(1000, 0, 0, 0)) == "[1000:00]" && !IsStamp("[1000:00]")
  {
    LastDigits();
    assert "[" + "1000" + ":" + "00" + "]" == "[1000:00]";
    LongIsNoStamp(Stamp(1000, 0, 0, 0));
  }

  /** A second more and the last stamp of all is one no longer. */
  lemma LastStampIsLost()
    ensures IsStamp("[999:59]") && ShiftLrc("[999:59]", 1.0) == "[1000:00]" && !IsStamp("[1000:00]")
    ensures Lex(ShiftLrc("[999:59]", 1.0)) != Replaced(Lex("[999:59]"), Repl(1.0))
  {
    LastReads();
    LastShifted();
    LastPrints();
    AloneShifts("[999:59]", 1.0);
  }

  /** A stamp that is the whole text. */
  lemma AloneShifts(raw: string, offset: real)
    requires IsStamp(raw)
    ensures ShiftLrc(raw, offset) == ShiftStamp(raw, offset)
    ensures !InRange(raw, offset) ==> Lex(ShiftLrc(raw, offset)) != Replaced(Lex(raw), Repl(offset))
  {
    StampStep(raw, "", Repl(offset));
    assert raw + "" == raw && Lex("") == [] && Lex(raw) == [Time(raw)];
    assert Time(raw) in Lex(raw);
    ShiftKeepsText(raw, offset);
  }

  // ---- Shifting twice ----

  /** On one stamp, two shifts are one exactly when the first does not clamp or
      the second does not move later. */
  lemma TwoShiftsOfOneIff(st: Stamp, a: real, b: real, sum: real)
    requires Whole(a, st.digits) && Whole(b, st.digits) && sum == a + b
    ensures ShiftedUnits(Shifted(st, a), b) == ShiftedUnits(st, sum)
            <==> Units(st) + OffsetUnits(a, st.digits) >= 0 || OffsetUnits(b, st.digits) <= 0
  {
    WholeShiftIsExact(st, a);
    WholeShiftIsExact(Shifted(st, a), b);
    WholeSum(a, b, st.digits);
    WholeShiftIsExact(st, sum);
    FromUnitsUnits(ShiftedUnits(st, a), st.digits);
  }

  lemma TwoShiftedIff(st: Stamp, a: real, b: real, sum: real)
    requires Whole(a, st.digits) && Whole(b, st.digits) && sum == a + b
    ensures Shifted(Shifted(st, a), b) == Shifted(st, sum)
            <==> Units(st) + OffsetUnits(a, st.digits) >= 0 || OffsetUnits(b, st.digits) <= 0
  {
    TwoShiftsOfOneIff(st, a, b, sum);
    FromUnitsUnits(ShiftedUnits(Shifted(st, a), b), st.digits);
    FromUnitsUnits(ShiftedUnits(st, sum), st.digits);
  }

  /** The stamp is not both clamped by the first shift and moved later by the
      second. */
  predicate Composes(raw: string, a: real, b: real)
    requires IsStamp(raw)
  {
    Unclamped(raw, a) || OffsetUnits(b, FieldsOf(raw).digits) <= 0
  }

  /** Both offsets are whole units of the stamp, and it stays in range. */
  predicate Fits(raw: string, a: real, b: real)
    requires IsStamp(raw)
  {
    && Whole(a, FieldsOf(raw).digits) && Whole(b, FieldsOf(raw).digits)
    && InRange(raw, a) && InRange(raw, a + b)
    && Shifted(Shifted(FieldsOf(raw), a), b).mins < 1000
  }

  /** The two shifts in a row, and their fields. */
  lemma StampTwice(raw: string, a: real, b: real)
    requires IsStamp(raw) && InRange(raw, a) && Shifted(Shifted(FieldsOf(raw), a), b).mins < 1000
    ensures IsStamp(ShiftStamp(raw, a))
    ensures Reads(ShiftStamp(ShiftStamp(raw, a), b), Shifted(Shifted(FieldsOf(raw), a), b))
  {
    ReplIsStamp(raw, a);
    assert InRange(ShiftStamp(raw, a), b);
    ReplIsStamp(ShiftStamp(raw, a), b);
  }

  /** Two texts that read as shifted twice and as shifted once. */
  lemma TextsAgreeIff(raw: string, a: real, b: real, sum: real, r: string, s: string)
    requires IsStamp(raw) && Whole(a, FieldsOf(raw).digits) && Whole(b, FieldsOf(raw).digits) && sum == a + b
    requires Reads(r, Shifted(Shifted(FieldsOf(raw), a), b)) && Reads(s, Shifted(FieldsOf(raw), sum))
    ensures r == s <==> Composes(raw, a, b)
  {
    SameTextIff(r, Shifted(Shifted(FieldsOf(raw), a), b), s, Shifted(FieldsOf(raw), sum));
    TwoShiftedIff(FieldsOf(raw), a, b, sum);
  }

  lemma StampTwiceIff(raw: string, a: real, b: real, sum: real)
    requires IsStamp(raw) && Whole(a, FieldsOf(raw).digits) && Whole(b, FieldsOf(raw).digits) && sum == a + b
    requires InRange(raw, a) && InRange(raw, sum) && Shifted(Shifted(FieldsOf(raw), a), b).mins < 1000
    ensures ShiftStamp(ShiftStamp(raw, a), b) == ShiftStamp(raw, sum) <==> Composes(raw, a, b)
    ensures IsStamp(ShiftStamp(raw, a)) && IsStamp(ShiftStamp(ShiftStamp(raw, a), b)) && IsStamp(ShiftStamp(raw, sum))
  {
    StampTwice(raw, a, b);
    ReplIsStamp(raw, sum);
    TextsAgreeIff(raw, a, b, sum, ShiftStamp(ShiftStamp(raw, a), b), ShiftStamp(raw, sum));
  }

  /** The stamp shifted twice, and by the sum. */
  predicate TwiceIff(raw: string, a: real, b: real, sum: real) {
    && IsStamp(raw) && IsStamp(ShiftStamp(raw, a)) && IsStamp(ShiftStamp(ShiftStamp(raw, a), b))
    && IsStamp(ShiftStamp(raw, sum))
    && (ShiftStamp(ShiftStamp(raw, a), b) == ShiftStamp(raw, sum) <==> Composes(raw, a, b))
  }

  ghost predicate AllFit(text: string, a: real, b: real) {
    forall t :: t in Lex(text) && t.Time? && IsStamp(t.raw) ==> Fits(t.raw, a, b)
  }

  ghost predicate AllCompose(text: string, a: real, b: real) {
    forall t :: t in Lex(text) && t.Time? && IsStamp(t.raw) ==> Composes(t.raw, a, b)
  }

  ghost predicate AllTwice(text: string, a: real, b: real, sum: real) {
    forall t :: t in Lex(text) && t.Time? ==> TwiceIff(t.raw, a, b, sum)
  }

  lemma FittingStampTwice(raw: string, a: real, b: real, sum: real)
    requires IsStamp(raw) && Fits(raw, a, b) && sum == a + b
    ensures TwiceIff(raw, a, b, sum)
  {
    StampTwiceIff(raw, a, b, sum);
  }

  lemma EachStampTwice(text: string, a: real, b: real, sum: real)
    requires sum == a + b && AllFit(text, a, b)
    ensures AllTwice(text, a, b, sum)
  {
    LexFindsStamps(text);
    forall t | t in Lex(text) && t.Time? ensures TwiceIff(t.raw, a, b, sum) {
      FittingStampTwice(t.raw, a, b, sum);
    }
  }

  lemma TextTwiceIff(text: string, a: real, b: real, sum: real, f: string -> string, g: string -> string,
                     h: string -> string)
    requires AllTwice(text, a, b, sum)
    requires forall raw ::
      f(raw) == ShiftStamp(raw, a) && g(raw) == ShiftStamp(raw, b) && h(raw) == ShiftStamp(raw, sum)
    ensures Sub(Sub(text, f), g) == Sub(text, h)
            <==> AllCompose(text, a, b)
  {
    forall t | t in Lex(text) && t.Time?
      ensures IsStamp(t.raw) && IsStamp(f(t.raw)) && IsStamp(g(f(t.raw))) && IsStamp(h(t.raw))
      ensures g(f(t.raw)) == h(t.raw) <==> Composes(t.raw, a, b)
    {
      assert TwiceIff(t.raw, a, b, sum);
    }
    SubTwiceIff(text, f, g, h);
  }

  /** Shifting twice is shifting once by the sum, exactly when no stamp is both
      clamped by the first shift and moved later by the second. */
  lemma ShiftsComposeIff(text: string, a: real, b: real, sum: real)
    requires AllFit(text, a, b) && sum == a + b
    ensures ShiftLrc(ShiftLrc(text, a), b) == ShiftLrc(text, sum) <==> AllCompose(text, a, b)
  {
    EachStampTwice(text, a, b, sum);
    TextTwiceIff(text, a, b, sum, Repl(a), Repl(b), Repl(sum));
  }

  // ---- There and back ----

  /** Two minute digits, or three not starting with 0; seconds below 60. */
  predicate Canonical(raw: string)
    requires IsStamp(raw)
  {
    var n := Run(raw[1..]);
    n >= 2 && (n == 3 ==> raw[1] != '0') && FieldsOf(raw).secs < 60
  }

  lemma Rejoin(raw: string, n: nat)
    requires n + 5 <= |raw| && raw[0] == '[' && raw[n + 1] == ':'
    ensures raw == "[" + raw[1..n + 1] + ":" + raw[n + 2..n + 4] + raw[n + 4..]
  {
    assert raw[..n + 2] == "[" + raw[1..n + 1] + ":";
    assert raw[..n + 4] == raw[..n + 2] + raw[n + 2..n + 4];
    assert raw == raw[..n + 4] + raw[n + 4..];
  }

  lemma {:induction false} NumAtLeast(s: string)
    requires AllDigits(s) && |s| == 3 && s[0] != '0'
    ensures Num(s) >= 100
  {
    assert s[0] in s;
    assert Num(s) == Num(s[..2]) * 10 + ValueOf(s[2]) && s[..2][..1] == s[..1];
    assert Num(s[..2]) == Num(s[..1]) * 10 + ValueOf(s[1]);
    assert Num(s[..1]) == Num(s[..0]) * 10 + ValueOf(s[0]);
  }

  /** Printing what was read restores the minutes if they are written so. */
  lemma MinutesRestored(m: string)
    requires AllDigits(m) && 2 <= |m| <= 3 && (|m| == 3 ==> m[0] != '0')
    ensures Pad(Num(m), 2) == m
  {
    PadOfNum(m);
    NumBound(m);
    if |m| == 3 {
      NumAtLeast(m);
      MinuteWidth(Num(m));
    }
  }

  lemma FractionField(raw: string, n: nat)
    requires IsStamp(raw) && n == Run(raw[1..]) && |raw| != n + 5
    ensures n + 7 <= |raw| && AllDigits(raw[n + 5..|raw| - 1]) && raw[n + 4..] == "." + raw[n + 5..|raw| - 1] + "]"
    ensures FieldsOf(raw).frac == Num(raw[n + 5..|raw| - 1]) && FieldsOf(raw).digits == |raw| - n - 6
  {
    StampParts(raw);
  }

  lemma EndRestored(raw: string, n: nat)
    requires IsStamp(raw) && n == Run(raw[1..])
    ensures n + 4 <= |raw| && End(FieldsOf(raw)) == raw[n + 4..]
  {
    StampParts(raw);
    if |raw| == n + 5 {
      assert raw[n + 4..] == "]";
    } else {
      FractionField(raw, n);
      EndText(FieldsOf(raw), raw[n + 5..|raw| - 1]);
    }
  }

  lemma EndText(st: Stamp, f: string)
    requires AllDigits(f) && st.digits == |f| > 0 && st.frac == Num(f)
    ensures End(st) == "." + f + "]"
  {
    PadOfNum(f);
  }

  lemma MainFields(raw: string, n: nat)
    requires IsStamp(raw) && n == Run(raw[1..])
    ensures n + 4 <= |raw| && AllDigits(raw[1..n + 1]) && AllDigits(raw[n + 2..n + 4])
    ensures FieldsOf(raw).mins == Num(raw[1..n + 1]) && FieldsOf(raw).secs == Num(raw[n + 2..n + 4])
  {
    StampParts(raw);
  }

  lemma CanonicalPrints(raw: string)
    requires IsStamp(raw) && Canonical(raw)
    ensures Print(FieldsOf(raw)) == raw
  {
    var n, st := Run(raw[1..]), FieldsOf(raw);
    StampParts(raw);
    MainFields(raw, n);
    assert Pad(st.mins, 2) == raw[1..n + 1] by { MinutesRestored(raw[1..n + 1]); }
    assert Pad(st.secs, 2) == raw[n + 2..n + 4] by { PadOfNum(raw[n + 2..n + 4]); }
    EndRestored(raw, n);
    Rejoin(raw, n);
  }

  lemma PrintIsCanonical(st: Stamp)
    requires InForm(st) && st.secs < 60
    ensures IsStamp(Print(st)) && Canonical(Print(st))
  {
    PrintReadsBack(st);
    MinuteWidth(st.mins);
    PadWidth(st.secs, 2);
    Layout(Pad(st.mins, 2), Pad(st.secs, 2), End(st));
    assert Print(st)[1..|Pad(st.mins, 2)| + 1][0] == Print(st)[1];
  }

  /** Every shifted stamp prints its seconds below 60 and its minutes without
      superfluous digits. */
  lemma ShiftedIsCanonical(raw: string, offset: real)
    requires IsStamp(raw) && InRange(raw, offset)
    ensures IsStamp(ShiftStamp(raw, offset)) && Canonical(ShiftStamp(raw, offset))
  {
    FieldsInForm(raw);
    FromUnitsUnits(ShiftedUnits(FieldsOf(raw), offset), FieldsOf(raw).digits);
    PrintIsCanonical(Shifted(FieldsOf(raw), offset));
  }

  lemma ZeroShift(st: Stamp)
    requires st.secs < 60 && st.frac < Pow10(st.digits)
    ensures Shifted(st, 0.0) == st
  {
    ZeroIsWhole(st.digits);
    WholeShiftIsExact(st, 0.0);
    UnitsFromUnits(st);
  }

  lemma ZeroIsWhole(d: Places)
    ensures Whole(0.0, d) && OffsetUnits(0.0, d) == 0
  {
    assert Scaled(0.0, d) == 0.0;
  }

  /** A shift by nothing restores a stamp exactly when it is canonical. */
  lemma RestoredIffCanonical(raw: string)
    requires IsStamp(raw) && InRange(raw, 0.0)
    ensures ShiftStamp(raw, 0.0) == raw <==> Canonical(raw)
  {
    ShiftedIsCanonical(raw, 0.0);
    if Canonical(raw) {
      FieldsInForm(raw);
      ZeroShift(FieldsOf(raw));
      CanonicalPrints(raw);
    }
  }

  lemma FloorOfNegation(x: real)
    requires x.Floor as real == x
    ensures (-x).Floor == -x.Floor && (-x).Floor as real == -x
  {
    assert -x == (-x.Floor) as real;
  }

  lemma WholeNegation(offset: real, back: real, d: Places)
    requires Whole(offset, d) && back == -offset
    ensures Whole(back, d) && OffsetUnits(back, d) == -OffsetUnits(offset, d)
  {
    FloorOfNegation(Scaled(offset, d));
    assert Scaled(back, d) == -Scaled(offset, d);
  }

  /** There and back without clamping is where a shift by nothing leads. */
  lemma BackIsNone(st: Stamp, offset: real, back: real)
    requires Whole(offset, st.digits) && Units(st) + OffsetUnits(offset, st.digits) >= 0 && back == -offset
    ensures Whole(back, st.digits) && Shifted(Shifted(st, offset), back) == Shifted(st, 0.0)
  {
    WholeNegation(offset, back, st.digits);
    TwoShiftedIff(st, offset, back, 0.0);
  }

  lemma StampBackIff(raw: string, offset: real, back: real)
    requires IsStamp(raw) && Whole(offset, FieldsOf(raw).digits) && Unclamped(raw, offset) && back == -offset
    requires InRange(raw, offset) && InRange(raw, 0.0)
    ensures ShiftStamp(ShiftStamp(raw, offset), back) == raw <==> Canonical(raw)
    ensures IsStamp(ShiftStamp(raw, offset)) && IsStamp(ShiftStamp(ShiftStamp(raw, offset), back))
  {
    BackIsNone(FieldsOf(raw), offset, back);
    StampTwiceIff(raw, offset, back, 0.0);
    RestoredIffCanonical(raw);
  }

  /** Whole units, no clamping, and in range both ways. */
  predicate FitsBack(raw: string, offset: real)
    requires IsStamp(raw)
  {
    Whole(offset, FieldsOf(raw).digits) && Unclamped(raw, offset) && InRange(raw, offset) && InRange(raw, 0.0)
  }

  predicate BackIff(raw: string, offset: real, back: real) {
    && IsStamp(raw) && IsStamp(ShiftStamp(raw, offset)) && IsStamp(ShiftStamp(ShiftStamp(raw, offset), back))
    && (ShiftStamp(ShiftStamp(raw, offset), back) == raw <==> Canonical(raw))
  }

  ghost predicate AllFitBack(text: string, offset: real) {
    forall t :: t in Lex(text) && t.Time? && IsStamp(t.raw) ==> FitsBack(t.raw, offset)
  }

  ghost predicate AllCanonical(text: string) {
    forall t :: t in Lex(text) && t.Time? && IsStamp(t.raw) ==> Canonical(t.raw)
  }

  ghost predicate AllBack(text: string, offset: real, back: real) {
    forall t :: t in Lex(text) && t.Time? ==> BackIff(t.raw, offset, back)
  }

  lemma FittingStampBack(raw: string, offset: real, back: real)
    requires IsStamp(raw) && FitsBack(raw, offset) && back == -offset
    ensures BackIff(raw, offset, back)
  {
    StampBackIff(raw, offset, back);
  }

  lemma EachStampBack(text: string, offset: real, back: real)
    requires AllFitBack(text, offset) && back == -offset
    ensures AllBack(text, offset, back)
  {
    LexFindsStamps(text);
    forall t | t in Lex(text) && t.Time? ensures BackIff(t.raw, offset, back) {
      FittingStampBack(t.raw, offset, back);
    }
  }

  lemma TextBackIff(text: string, offset: real, back: real, f: string -> string, g: string -> string)
    requires AllBack(text, offset, back)
    requires forall raw :: f(raw) == ShiftStamp(raw, offset) && g(raw) == ShiftStamp(raw, back)
    ensures Sub(Sub(text, f), g) == text
            <==> AllCanonical(text)
  {
    forall t | t in Lex(text) && t.Time?
      ensures IsStamp(t.raw) && IsStamp(f(t.raw)) && IsStamp(g(f(t.raw)))
      ensures g(f(t.raw)) == Identity()(t.raw) <==> Canonical(t.raw)
    {
      assert BackIff(t.raw, offset, back);
    }
    IdentitySub(text);
    SubTwiceIff(text, f, g, Identity());
  }

  /** Shifting by whole units and back, without clamping, restores the text
      exactly when all its stamps are canonical. */
  lemma ThereAndBackIff(text: string, offset: real, back: real)
    requires AllFitBack(text, offset) && back == -offset
    ensures ShiftLrc(ShiftLrc(text, offset), back) == text <==> AllCanonical(text)
  {
    EachStampBack(text, offset, back);
    TextBackIff(text, offset, back, Repl(offset), Repl(back));
  }
}
