/** LRC text as plain characters and timestamps, and replacing the timestamps. */
module LrcText {
  predicate IsDigit(c: char) {
    '0' <= c <= '9'
  }

  predicate AllDigits(s: string) {
    forall c :: c in s ==> IsDigit(c)
  }

  // ---- Recognising a stamp ----

  /** Number of leading digits. */
  function Run(s: string): (n: nat)
    ensures n <= |s| && AllDigits(s[..n]) && (n < |s| ==> !IsDigit(s[n]))
  {
    if s == "" || !IsDigit(s[0]) then 0 else 1 + Run(s[1..])
  }

  predicate At(s: string, i: nat, c: char) {
    i < |s| && s[i] == c
  }

  /** Length of the stamp at the head of s: a bracket, one to three digits, a
      colon, two digits, optionally a point and one to three digits, a bracket.
      0 when there is none. */
  function MatchLen(s: string): (m: nat)
    ensures m <= |s|
  {
    if !At(s, 0, '[') then 0
    else
      var n := Run(s[1..]);
      if n < 1 || n > 3 || !At(s, n + 1, ':') then 0 else TailLen(s, n)
  }

  /** The part from the colon on, when n digits of minutes precede it. */
  function TailLen(s: string, n: nat): (m: nat)
    requires At(s, n + 1, ':')
    ensures m <= |s|
  {
    if Run(s[n + 2..]) != 2 then 0
    else if At(s, n + 4, ']') then n + 5
    else if !At(s, n + 4, '.') then 0
    else
      var f := Run(s[n + 5..]);
      if 1 <= f <= 3 && At(s, n + 5 + f, ']') then n + 6 + f else 0
  }

  lemma {:induction false} RunStops(u: string, v: string)
    requires Run(u) < |u| || v == "" || !IsDigit(v[0])
    ensures Run(u + v) == Run(u)
  {
    if u == "" {
      assert u + v == v;
    } else if IsDigit(u[0]) {
      assert (u + v)[1..] == u[1..] + v;
      RunStops(u[1..], v);
    }
  }

  /** Whether a stamp stands at the head is settled before the next bracket. */
  lemma MatchIsLocal(q: string, x: string)
    requires q != "" && (x == "" || x[0] == '[')
    ensures MatchLen(q + x) == MatchLen(q)
  {
    var s := q + x;
    if At(q, 0, '[') {
      assert s[1..] == q[1..] + x;
      RunStops(q[1..], x);
      var n := Run(q[1..]);
      if At(q, n + 1, ':') { TailIsLocal(q, x, n); }
    }
  }

  lemma TailIsLocal(q: string, x: string, n: nat)
    requires At(q, n + 1, ':') && (x == "" || x[0] == '[')
    ensures At(q + x, n + 1, ':') && TailLen(q + x, n) == TailLen(q, n)
  {
    var s := q + x;
    assert s[n + 2..] == q[n + 2..] + x;
    RunStops(q[n + 2..], x);
    if Run(q[n + 2..]) == 2 && At(q, n + 4, '.') {
      assert s[n + 5..] == q[n + 5..] + x;
      RunStops(q[n + 5..], x);
    }
  }

  predicate IsStamp(raw: string) {
    raw != "" && MatchLen(raw) == |raw|
  }

  /** A whole stamp is recognised whatever follows it. */
  lemma StampThenAnything(raw: string, y: string)
    requires IsStamp(raw)
    ensures MatchLen(raw + y) == |raw|
  {
    assert (raw + y)[1..] == raw[1..] + y;
    RunStops(raw[1..], y);
    TailThenAnything(raw, y, Run(raw[1..]));
  }

  lemma TailThenAnything(raw: string, y: string, n: nat)
    requires At(raw, n + 1, ':') && TailLen(raw, n) == |raw|
    ensures At(raw + y, n + 1, ':') && TailLen(raw + y, n) == |raw|
  {
    var s := raw + y;
    assert s[n + 2..] == raw[n + 2..] + y;
    RunStops(raw[n + 2..], y);
    if At(raw, n + 4, '.') {
      assert s[n + 5..] == raw[n + 5..] + y;
      RunStops(raw[n + 5..], y);
    }
  }

  /** The recognised head is itself a stamp. */
  lemma HeadIsStamp(s: string)
    requires MatchLen(s) > 0
    ensures IsStamp(s[..MatchLen(s)]) && s[0] == '['
  {
    var m, n := MatchLen(s), Run(s[1..]);
    SameRun(s[1..], s[..m][1..], n);
    TailOfHead(s, n);
  }

  lemma TailOfHead(s: string, n: nat)
    requires At(s, n + 1, ':') && TailLen(s, n) > 0
    ensures var raw := s[..TailLen(s, n)];
            At(raw, n + 1, ':') && TailLen(raw, n) == |raw|
  {
    var raw := s[..TailLen(s, n)];
    SameRun(s[n + 2..], raw[n + 2..], 2);
    if !At(s, n + 4, ']') {
      SameRun(s[n + 5..], raw[n + 5..], Run(s[n + 5..]));
    }
  }

  lemma {:induction false} SameRun(u: string, v: string, n: nat)
    requires n == Run(u) && n < |v| <= |u| && v == u[..|v|]
    ensures Run(v) == n
  {
    if n > 0 { SameRun(u[1..], v[1..], n - 1); }
  }

  // ---- Replacing stamps ----

  /** Replaces every stamp, left to right, like a regular-expression substitution. */
  function Sub(text: string, repl: string -> string): string {
    var m := MatchLen(text);
    if text == "" then ""
    else if m == 0 then [text[0]] + Sub(text[1..], repl)
    else repl(text[..m]) + Sub(text[m..], repl)
  }

  datatype Token = Plain(c: char) | Time(raw: string)

  function Lex(text: string): seq<Token> {
    var m := MatchLen(text);
    if text == "" then []
    else if m == 0 then [Plain(text[0])] + Lex(text[1..])
    else [Time(text[..m])] + Lex(text[m..])
  }

  function Text(ts: seq<Token>): string {
    if ts == [] then "" else (if ts[0].Plain? then [ts[0].c] else ts[0].raw) + Text(ts[1..])
  }

  function Replaced(ts: seq<Token>, repl: string -> string): (r: seq<Token>)
    ensures |r| == |ts|
    ensures forall i :: 0 <= i < |ts| ==> r[i] == if ts[i].Time? then Time(repl(ts[i].raw)) else ts[i]
  {
    seq(|ts|, i requires 0 <= i < |ts| => if ts[i].Time? then Time(repl(ts[i].raw)) else ts[i])
  }

  lemma {:induction false} LexFindsStamps(text: string)
    ensures forall t :: t in Lex(text) && t.Time? ==> IsStamp(t.raw)
  {
    if text != "" {
      var m := MatchLen(text);
      if m == 0 {
        LexFindsStamps(text[1..]);
      } else {
        HeadIsStamp(text);
        LexFindsStamps(text[m..]);
      }
    }
  }

  lemma TextCons(t: Token, ts: seq<Token>)
    ensures Text([t] + ts) == (if t.Plain? then [t.c] else t.raw) + Text(ts)
  {
    assert ([t] + ts)[1..] == ts;
  }

  /** The first piece of a text, as replacing and cutting see it. */
  lemma FirstPiece(text: string, repl: string -> string) returns (t: Token, rest: string)
    requires text != ""
    ensures |rest| < |text| && text == (if t.Plain? then [t.c] else t.raw) + rest
    ensures Lex(text) == [t] + Lex(rest)
    ensures Sub(text, repl) == (if t.Plain? then [t.c] else repl(t.raw)) + Sub(rest, repl)
    ensures if t.Plain? then MatchLen([t.c] + rest) == 0 else IsStamp(t.raw)
  {
    var m := MatchLen(text);
    if m == 0 {
      t, rest := Plain(text[0]), text[1..];
      assert text == [text[0]] + rest;
    } else {
      HeadIsStamp(text);
      t, rest := Time(text[..m]), text[m..];
    }
  }

  /** Cutting a text up loses nothing. */
  lemma {:induction false} LexIsLossless(text: string)
    ensures Text(Lex(text)) == text
    decreases |text|
  {
    if text != "" {
      var t, rest := FirstPiece(text, s => s);
      LexIsLossless(rest);
      TextCons(t, Lex(rest));
    }
  }

  lemma PlainStep(c: char, rest: string, repl: string -> string)
    requires MatchLen([c] + rest) == 0
    ensures Sub([c] + rest, repl) == [c] + Sub(rest, repl) && Lex([c] + rest) == [Plain(c)] + Lex(rest)
  {
    assert ([c] + rest)[1..] == rest;
  }

  lemma StampStep(raw: string, rest: string, repl: string -> string)
    requires IsStamp(raw)
    ensures Sub(raw + rest, repl) == repl(raw) + Sub(rest, repl) && Lex(raw + rest) == [Time(raw)] + Lex(rest)
  {
    StampThenAnything(raw, rest);
    assert (raw + rest)[..|raw|] == raw && (raw + rest)[|raw|..] == rest;
  }

  lemma NoBracketNoStamp(c: char, rest: string)
    requires c != '['
    ensures MatchLen([c] + rest) == 0
  {
  }

  lemma {:induction false} PlainIsCopied(q: string, x: string, repl: string -> string)
    requires '[' !in q
    ensures Sub(q + x, repl) == q + Sub(x, repl)
    decreases |q|
  {
    if q == "" {
      assert q + x == x;
    } else {
      assert q[0] in q && '[' !in q[1..];
      NoBracketNoStamp(q[0], q[1..] + x);
      PlainStep(q[0], q[1..] + x, repl);
      PlainIsCopied(q[1..], x, repl);
      FirstApart(q, x, Sub(x, repl));
    }
  }

  lemma FirstApart(q: string, x: string, y: string)
    requires q != ""
    ensures q + x == [q[0]] + (q[1..] + x) && q + y == [q[0]] + (q[1..] + y)
  {
  }

  /** Every replacement is a stamp again. */
  ghost predicate ReplacesStamps(text: string, repl: string -> string) {
    forall t :: t in Lex(text) && t.Time? ==> IsStamp(repl(t.raw))
  }

  lemma BracketStays(x: string, repl: string -> string)
    requires ReplacesStamps(x, repl)
    ensures x == "" ==> Sub(x, repl) == ""
    ensures x != "" && x[0] == '[' ==> Sub(x, repl) != "" && Sub(x, repl)[0] == '['
  {
    if x != "" && MatchLen(x) > 0 {
      assert Time(x[..MatchLen(x)]) in Lex(x);
    }
  }

  function PlainLen(s: string): (k: nat)
    ensures k <= |s| && '[' !in s[..k] && (k < |s| ==> s[k] == '[')
  {
    if s == "" || s[0] == '[' then 0 else 1 + PlainLen(s[1..])
  }

  lemma {:induction false} LexAfterPlain(q: string, x: string)
    requires '[' !in q
    ensures forall t :: t in Lex(x) ==> t in Lex(q + x)
    decreases |q|
  {
    if q == "" {
      assert q + x == x;
    } else {
      assert q[0] in q && '[' !in q[1..];
      NoBracketNoStamp(q[0], q[1..] + x);
      PlainStep(q[0], q[1..] + x, s => s);
      FirstApart(q, x, x);
      LexAfterPlain(q[1..], x);
    }
  }

  lemma Regroup(a: string, b: string, c: string)
    ensures a + (b + c) == (a + b) + c
  {
  }

  /** Where no stamp stood, none arises. */
  lemma NoNewStamp(c: char, rest: string, repl: string -> string)
    requires MatchLen([c] + rest) == 0 && ReplacesStamps(rest, repl)
    ensures MatchLen([c] + Sub(rest, repl)) == 0
  {
    var k := PlainLen(rest);
    var q, x := rest[..k], rest[k..];
    assert rest == q + x;
    PlainIsCopied(q, x, repl);
    LexAfterPlain(q, x);
    BracketStays(x, repl);
    Regroup([c], q, x);
    Regroup([c], q, Sub(x, repl));
    MatchIsLocal([c] + q, x);
    MatchIsLocal([c] + q, Sub(x, repl));
  }

  lemma ReplacedCons(t: Token, ts: seq<Token>, repl: string -> string)
    ensures Replaced([t] + ts, repl) == [if t.Time? then Time(repl(t.raw)) else t] + Replaced(ts, repl)
  {
  }

  /** Replacing changes the stamps and nothing else: the new text has the same
      characters, and a stamp exactly where there was one. */
  lemma {:induction false} SubKeepsText(text: string, repl: string -> string)
    requires ReplacesStamps(text, repl)
    ensures Lex(Sub(text, repl)) == Replaced(Lex(text), repl)
    decreases |text|
  {
    if text != "" {
      var t, rest := FirstPiece(text, repl);
      RestReplacesStamps(text, t, rest, repl);
      SubKeepsText(rest, repl);
      ReplacedCons(t, Lex(rest), repl);
      if t.Plain? {
        NoNewStamp(t.c, rest, repl);
        PlainStep(t.c, Sub(rest, repl), repl);
      } else {
        StampStep(repl(t.raw), Sub(rest, repl), repl);
      }
    }
  }

  lemma RestReplacesStamps(text: string, t: Token, rest: string, repl: string -> string)
    requires ReplacesStamps(text, repl) && Lex(text) == [t] + Lex(rest)
    ensures ReplacesStamps(rest, repl) && (t.Time? ==> IsStamp(repl(t.raw)))
  {
    assert t in Lex(text) && forall u :: u in Lex(rest) ==> u in Lex(text);
  }

  /** Exactly when every replacement is a stamp. */
  lemma TextKeptIff(text: string, repl: string -> string)
    ensures Lex(Sub(text, repl)) == Replaced(Lex(text), repl) <==> ReplacesStamps(text, repl)
  {
    if ReplacesStamps(text, repl) {
      SubKeepsText(text, repl);
    }
    if Lex(Sub(text, repl)) == Replaced(Lex(text), repl) {
      LexFindsStamps(Sub(text, repl));
      forall t | t in Lex(text) && t.Time? ensures IsStamp(repl(t.raw)) {
        var i :| 0 <= i < |Lex(text)| && Lex(text)[i] == t;
        assert Lex(Sub(text, repl))[i] == Time(repl(t.raw));
      }
    }
  }

  /** Substituting is replacing token by token. */
  lemma {:induction false} SubIsTokenwise(text: string, repl: string -> string)
    ensures Sub(text, repl) == Text(Replaced(Lex(text), repl))
    decreases |text|
  {
    if text != "" {
      var t, rest := FirstPiece(text, repl);
      SubIsTokenwise(rest, repl);
      ReplacedCons(t, Lex(rest), repl);
      TextCons(if t.Time? then Time(repl(t.raw)) else t, Replaced(Lex(rest), repl));
    }
  }

  ghost predicate SameOn(text: string, f: string -> string, g: string -> string) {
    forall t :: t in Lex(text) && t.Time? ==> f(t.raw) == g(t.raw)
  }

  /** Two substitutions that agree on the text's stamps, and only such, give the
      same text, provided they put stamps for stamps. */
  lemma SameSubIff(text: string, f: string -> string, g: string -> string)
    requires ReplacesStamps(text, f) && ReplacesStamps(text, g)
    ensures Sub(text, f) == Sub(text, g) <==> SameOn(text, f, g)
  {
    if Sub(text, f) == Sub(text, g) {
      SubKeepsText(text, f);
      SubKeepsText(text, g);
      forall t | t in Lex(text) && t.Time? ensures f(t.raw) == g(t.raw) {
        var i :| 0 <= i < |Lex(text)| && Lex(text)[i] == t;
        assert Replaced(Lex(text), f)[i] == Replaced(Lex(text), g)[i];
      }
    }
    if SameOn(text, f, g) {
      assert Replaced(Lex(text), f) == Replaced(Lex(text), g);
      SubIsTokenwise(text, f);
      SubIsTokenwise(text, g);
    }
  }

  function Then(f: string -> string, g: string -> string): string -> string {
    raw => g(f(raw))
  }

  /** Substituting twice is substituting by the composition. */
  lemma SubTwice(text: string, f: string -> string, g: string -> string)
    requires ReplacesStamps(text, f)
    ensures Sub(Sub(text, f), g) == Sub(text, Then(f, g))
  {
    SubKeepsText(text, f);
    SubIsTokenwise(Sub(text, f), g);
    SubIsTokenwise(text, Then(f, g));
    assert Replaced(Replaced(Lex(text), f), g) == Replaced(Lex(text), Then(f, g));
  }

  function Identity(): string -> string {
    raw => raw
  }

  lemma IdentitySub(text: string)
    ensures Sub(text, Identity()) == text && ReplacesStamps(text, Identity())
  {
    LexFindsStamps(text);
    SubIsTokenwise(text, Identity());
    LexIsLossless(text);
    assert Replaced(Lex(text), Identity()) == Lex(text);
  }

  /** Two substitutions in a row give what h gives exactly when they do so on
      every stamp of the text. */
  lemma SubTwiceIff(text: string, f: string -> string, g: string -> string, h: string -> string)
    requires forall t :: t in Lex(text) && t.Time? ==> IsStamp(f(t.raw)) && IsStamp(g(f(t.raw))) && IsStamp(h(t.raw))
    ensures Sub(Sub(text, f), g) == Sub(text, h)
            <==> forall t :: t in Lex(text) && t.Time? ==> g(f(t.raw)) == h(t.raw)
  {
    SubTwice(text, f, g);
    SameSubIff(text, Then(f, g), h);
  }
}
