/** The round trip: what the encoder writes, with any whitespace between the tokens, decodes
    to the value again. */
module JsonProof {
  import opened Json
  import opened JsonText

  /* ---- the values and texts of the round trip ---- */

  predicate GoodStr(s: string) {
    forall i | 0 <= i < |s| :: s[i] as int >= 0x20
  }

  /** Integers of magnitude at most 2^53, strings without control characters, distinct keys. */
  predicate Good(v: JVal)
    decreases v
  {
    match v
    case JInt(n) => -TWO_53 <= n <= TWO_53
    case JReal(_) => false
    case JStr(s) => GoodStr(s)
    case JArr(items) => GoodItems(items)
    case JDict(entries) => GoodEntries(entries)
    case _ => true
  }

  predicate GoodItems(items: seq<JVal>)
    decreases items
  {
    items != [] ==> Good(items[0]) && GoodItems(items[1..])
  }

  predicate GoodEntries(es: seq<Entry>)
    decreases es
  {
    es != [] ==>
      && GoodStr(es[0].key) && !HasKey(es[1..], es[0].key)
      && (assert es[0] decreases to es[0].value; Good(es[0].value)) && GoodEntries(es[1..])
  }

  /** Small integers are represented exactly. */
  ghost predicate Exact(A: Arith) {
    forall n :: -TWO_53 <= n <= TWO_53 ==> A.rnd(n) == n
  }

  /** Section 2 of RFC 8259. */
  predicate AllWs(s: string) {
    forall i | 0 <= i < |s| :: s[i] in {' ', '\t', '\n', '\r'}
  }

  /** Tokens with whitespace before each and behind the last. */
  function Spaced(toks: seq<string>, ws: seq<string>): string
    requires |ws| == |toks| + 1
  {
    if toks == [] then ws[0] else ws[0] + (toks[0] + Spaced(toks[1..], ws[1..]))
  }

  predicate WsOnly(ws: seq<string>) {
    forall i | 0 <= i < |ws| :: AllWs(ws[i])
  }

  /** From `pos` on, the text is these tokens. */
  predicate From(t: string, pos: nat, toks: seq<string>, ws: seq<string>) {
    |ws| == |toks| + 1 && WsOnly(ws) && pos <= |t| && t[pos..] == Spaced(toks, ws)
  }

  predicate GoodTok(tok: string) {
    tok != "" && !IsWs(tok[0])
  }

  /** What can follow a value. */
  predicate Follows(more: seq<string>) {
    more != [] ==> more[0] == "," || more[0] == "]" || more[0] == "}"
  }

  /* ---- moving through the text ---- */

  lemma {:induction false} SkipOver(t: string, pos: nat, w: string, rest: string)
    requires pos <= |t| && t[pos..] == w + rest && AllWs(w) && (rest != "" ==> !IsWs(rest[0]))
    ensures SkipWs(t, pos) == pos + |w| && t[pos + |w|..] == rest
    decreases |w|
  {
    assert t[pos..][|w|..] == rest;
    if w == "" {
      assert rest != "" ==> t[pos] == rest[0];
    } else {
      assert t[pos] == w[0] && t[pos + 1..] == w[1..] + rest;
      SkipOver(t, pos + 1, w[1..], rest);
    }
  }

  /** Skipping whitespace leads to the next token, and behind that the rest begins. */
  lemma NextTok(t: string, pos: nat, toks: seq<string>, ws: seq<string>) returns (p: nat)
    requires From(t, pos, toks, ws) && toks != [] && GoodTok(toks[0])
    ensures p == SkipWs(t, pos) && p + |toks[0]| <= |t| && t[p..p + |toks[0]|] == toks[0] && p < |t|
            && t[p] == toks[0][0]
    ensures From(t, p + |toks[0]|, toks[1..], ws[1..])
    ensures From(t, p, toks, [""] + ws[1..])
  {
    hide Spaced, AllWs, SkipWs;
    var tail := Spaced(toks[1..], ws[1..]);
    var rest := toks[0] + tail;
    SpacedIs(toks, ws);
    SpacedIs(toks, [""] + ws[1..]);
    assert rest[0] == toks[0][0] && "" + rest == rest && ([""] + ws[1..])[1..] == ws[1..] && AllWs("") by { NoWs(); }
    SkipOver(t, pos, ws[0], rest);
    p := pos + |ws[0]|;
    StandsAt(t, p, toks[0], tail);
  }

  lemma SpacedIs(toks: seq<string>, ws: seq<string>)
    requires |ws| == |toks| + 1 && toks != []
    ensures Spaced(toks, ws) == ws[0] + (toks[0] + Spaced(toks[1..], ws[1..]))
  {
  }

  lemma NoWs()
    ensures AllWs("")
  {
  }

  lemma StandsAt(t: string, p: nat, tok: string, tail: string)
    requires p <= |t| && t[p..] == tok + tail
    ensures p + |tok| <= |t| && t[p..p + |tok|] == tok && t[p + |tok|..] == tail
  {
    assert t[p..][..|tok|] == tok && t[p..][|tok|..] == tail;
  }

  lemma NoTok(t: string, pos: nat, ws: seq<string>)
    requires From(t, pos, [], ws)
    ensures SkipWs(t, pos) == |t|
  {
    assert ws[0] + "" == ws[0];
    SkipOver(t, pos, ws[0], "");
  }

  /** The character behind a value ends a number. */
  lemma Ends(t: string, pos: nat, more: seq<string>, ws: seq<string>)
    requires From(t, pos, more, ws) && Follows(more)
    ensures !IsDigit(At(t, pos)) && At(t, pos) != '.' && At(t, pos) != 'e' && At(t, pos) != 'E'
  {
    if ws[0] != "" { assert pos < |t| ==> t[pos] == t[pos..][0] == ws[0][0]; }
    else if more != [] { assert pos < |t| ==> t[pos] == t[pos..][0] == more[0][0]; }
  }

  /* ---- strings ---- */

  /** One character, however it is written. */
  lemma SpellRead(t: string, pos: nat, acc: string, x: Spelling, rest: string)
    requires SpellOk(x) && pos <= |t| && t[pos..] == SpellText(x) + rest
    ensures pos < |t| && pos + |SpellText(x)| <= |t| && t[pos + |SpellText(x)|..] == rest
    ensures ScanStr(t, pos, acc) == ScanStr(t, pos + |SpellText(x)|, acc + SpellMeans(x))
  {
    hide ESCAPES, HEX, HEX_UPPER;
    assert t[pos] == t[pos..][0];
    assert t[pos + |SpellText(x)|..] == t[pos..][|SpellText(x)|..];
    match x
    case Raw(_) =>
    case Letter(l) =>
      assert t[pos + 1] == t[pos..][1] == l;
      LetterRead(t, pos + 1);
    case Code(h) =>
      assert forall i | 0 <= i < 4 :: t[pos + 2 + i] == t[pos..][2 + i] == h[i];
      assert t[pos + 1] == t[pos..][1] == 'u';
      CodeRead(t, pos + 1, h);
  }

  lemma LetterRead(t: string, pos: nat)
    requires pos < |t| && t[pos] in ESCAPES
    ensures Unescape(t, pos) == Some(Escape([ESCAPES[t[pos]]], 1))
  {
  }

  lemma CodeRead(t: string, pos: nat, h: string)
    requires IsCode(h) && pos + 4 < |t| && t[pos] == 'u' && forall i | 0 <= i < 4 :: t[pos + 1 + i] == h[i]
    ensures HexValue(h) < 0x10000 && Unescape(t, pos) == Some(Escape(Utf8(HexValue(h)), 5))
  {
    hide Utf8, HexValue, Hex, IsHex, HEX, HEX_UPPER;
    HexRange(h);
    HexIs(h[0]);
    HexIs(h[1]);
    HexIs(h[2]);
    HexIs(h[3]);
    HexFour(h);
    assert t[pos + 1 + 0] == h[0] && t[pos + 1 + 1] == h[1] && t[pos + 1 + 2] == h[2] && t[pos + 1 + 3] == h[3];
  }

  lemma HexIs(c: char)
    requires c in HEX || c in HEX_UPPER
    ensures IsHex(c) && Hex(c) == HexValue([c])
  {
    assert [c][..0] == "";
    if c in HEX {
      PlaceIn(HEX, c);
      HexAt(Place(HEX, c));
    } else {
      PlaceIn(HEX_UPPER, c);
      HexAt(Place(HEX_UPPER, c));
    }
  }

  lemma HexAt(i: nat)
    requires i < 16
    ensures |HEX| == 16 && |HEX_UPPER| == 16
    ensures IsHex(HEX[i]) && Hex(HEX[i]) == i && IsHex(HEX_UPPER[i]) && Hex(HEX_UPPER[i]) == i
  {
  }

  lemma HexFour(h: string)
    requires |h| == 4
    ensures HexValue(h)
            == ((HexValue([h[0]]) * 16 + HexValue([h[1]])) * 16 + HexValue([h[2]])) * 16 + HexValue([h[3]])
  {
    hide HEX, HEX_UPPER;
    assert h[..1] == [h[0]] && h[..2][..1] == h[..1] && h[..3][..2] == h[..2];
    HexMore(h[..2]);
    HexMore(h[..3]);
    HexMore(h);
  }

  lemma HexMore(h: string)
    requires h != ""
    ensures HexValue(h) == HexValue(h[..|h| - 1]) * 16 + HexValue([h[|h| - 1]])
  {
    hide HEX, HEX_UPPER;
    assert [h[|h| - 1]][..0] == "";
  }

  /** Codes are turned into UTF-8. */
  lemma Utf8Is(u: int)
    requires 0 <= u < 0x10000
    ensures IsUtf8(u, Utf8(u))
  {
    assert 0x40 * (u / 64) + u % 64 == u;
    assert 0x40 * (u / 4096) + u / 64 % 64 == u / 64;
  }

  lemma {:induction false} ScanSpelled(t: string, pos: nat, cs: seq<Spelling>, acc: string, rest: string)
    requires pos <= |t| && t[pos..] == StrText(cs) + ("\"" + rest) && StrOk(cs)
    ensures ScanStr(t, pos, acc) == Some(Scanned(acc + StrMeans(cs), pos + |StrText(cs)|))
    decreases |cs|
  {
    hide SpellText, SpellMeans, SpellOk, ScanStr, StrText, StrMeans, StrOk;
    if cs == [] {
      ScanEnd(t, pos, acc, rest);
    } else {
      var first, tail := SpellText(cs[0]), StrText(cs[1..]) + ("\"" + rest);
      SpelledSplit(cs);
      assert t[pos..] == first + tail;
      SpellRead(t, pos, acc, cs[0], tail);
      ScanSpelled(t, pos + |first|, cs[1..], acc + SpellMeans(cs[0]), rest);
      assert (acc + SpellMeans(cs[0])) + StrMeans(cs[1..]) == acc + StrMeans(cs);
    }
  }

  lemma ScanEnd(t: string, pos: nat, acc: string, rest: string)
    requires pos <= |t| && t[pos..] == StrText([]) + ("\"" + rest)
    ensures ScanStr(t, pos, acc) == Some(Scanned(acc + StrMeans([]), pos + |StrText([])|))
  {
    assert t[pos] == t[pos..][0] == '"';
    assert acc + "" == acc;
  }

  lemma SpelledSplit(cs: seq<Spelling>)
    requires StrOk(cs) && cs != []
    ensures SpellOk(cs[0]) && StrOk(cs[1..])
    ensures StrText(cs) == SpellText(cs[0]) + StrText(cs[1..])
    ensures StrMeans(cs) == SpellMeans(cs[0]) + StrMeans(cs[1..])
  {
    hide SpellOk;
  }

  /* ---- numbers ---- */

  lemma {:induction false} SkipAll(t: string, pos: nat, ds: string, rest: string)
    requires pos <= |t| && t[pos..] == ds + rest && AllDigits(ds) && (rest != "" ==> !IsDigit(rest[0]))
    ensures SkipDigits(t, pos) == pos + |ds|
    decreases |ds|
  {
    if ds == "" {
      assert rest != "" ==> t[pos] == t[pos..][0] == rest[0];
    } else {
      assert t[pos] == t[pos..][0] == ds[0] && t[pos + 1..] == ds[1..] + rest;
      SkipAll(t, pos + 1, ds[1..], rest);
    }
  }

  lemma {:induction false} DigitsConcat(A: Arith, a: string, b: string, v: int)
    ensures Digits(A, a + b, v) == Digits(A, b, Digits(A, a, v))
    decreases |a|
  {
    if a == "" { assert a + b == b; }
    else {
      assert (a + b)[1..] == a[1..] + b;
      DigitsConcat(A, a[1..], b, A.rnd(A.rnd(v * 10) + Digit(a[0])));
    }
  }

  /** Reading the digits of a number gives the number: no step rounds. */
  lemma {:induction false} DigitsAre(A: Arith, ds: string)
    requires Exact(A) && ds != "" && AllDigits(ds) && Val(ds) <= TWO_53
    ensures Digits(A, ds[1..], Digit(ds[0])) == Val(ds)
    decreases |ds|
  {
    var n := |ds| - 1;
    var front, last := ds[..n], ds[n..];
    if n == 0 {
      assert ds[1..] == "" && ds[..0] == "";
    } else {
      DigitsAre(A, front);
      assert ds[1..] == front[1..] + last && ds[0] == front[0];
      DigitsConcat(A, front[1..], last, Digit(ds[0]));
      assert last[1..] == "" && last[0] == ds[n];
      assert A.rnd(Val(front) * 10) == Val(front) * 10 && A.rnd(Val(front) * 10 + Digit(ds[n])) == Val(ds);
    }
  }

  /** A number as it is written, up to what cannot go on with it. */
  lemma ScanNumeral(A: Arith, t: string, p: nat, x: Numeral, rest: string)
    requires Exact(A) && NumOk(x) && p <= |t| && t[p..] == NumText(x) + rest
    requires var c := At(t, p + |NumText(x)|); !IsDigit(c) && c != '.' && c != 'e' && c != 'E'
    ensures p < |t| && (IsDigit(t[p]) || t[p] == '-')
            && ScanNum(A, t, p) == Some(Number(NumMeans(A, x), p + |NumText(x)|))
  {
    hide Val, Digits, SkipDigits, NumOk, NumText, NumTail, NumMeans, ScanNum, Exact, Plain, RealAt, FracText, AllDigits;
    var q, w := if x.neg then p + 1 else p, |x.whole|;
    var behind := NumTail(x) + rest;
    NumSplit(t, p, x, rest);
    TailStarts(x, rest, t, p + |NumText(x)|);
    WholeOk(x);
    WholeAt(t, q, x.whole, behind);
    var p2 := q + w;
    if x.frac.None? && x.exp.None? {
      ScanInteger(A, t, p, q, p2, x);
    } else {
      RealScan(t, p2, x, rest);
      ScanReal(A, t, p, q, p2, p2 + |FracText(x)|, p + |NumText(x)|, x.neg);
      RealMeans(A, x);
    }
  }

  lemma RealMeans(A: Arith, x: Numeral)
    requires NumOk(x) && (x.frac.Some? || x.exp.Some?)
    ensures NumMeans(A, x) == A.frac(NumText(x))
  {
  }

  lemma WholeOk(x: Numeral)
    requires NumOk(x)
    ensures x.whole != "" && AllDigits(x.whole) && (x.whole[0] == '0' ==> |x.whole| == 1)
    ensures x.frac.None? && x.exp.None? ==> Val(x.whole) <= TWO_53 && NumTail(x) == ""
  {
  }

  /** What stands behind the whole part is no digit. */
  lemma TailStarts(x: Numeral, rest: string, t: string, end: nat)
    requires NumOk(x) && end <= |t| && t[end..] == rest && !IsDigit(At(t, end))
    ensures var behind := NumTail(x) + rest; behind != "" ==> !IsDigit(behind[0])
    ensures rest != "" ==> !IsDigit(rest[0])
  {
    hide Val;
    assert rest != "" ==> t[end] == t[end..][0];
  }

  lemma ScanInteger(A: Arith, t: string, p: nat, q: nat, p2: nat, x: Numeral)
    requires Exact(A) && NumOk(x) && x.frac.None? && x.exp.None? && p <= q < |t| && q == (if x.neg then p + 1 else p)
    requires (x.neg <==> t[p] == '-') && IsDigit(t[q]) && t[q] == x.whole[0] && q < p2 <= |t|
    requires t[q + 1..p2] == x.whole[1..] && p2 == if Digit(t[q]) != 0 then SkipDigits(t, q + 1) else q + 1
    requires var c := At(t, p2); c != '.' && c != 'e' && c != 'E'
    ensures ScanNum(A, t, p) == Some(Number(NumMeans(A, x), p2))
  {
    hide Val, Digits, SkipDigits, Exact, ScanNum;
    DigitsAre(A, x.whole);
    ScanPlain(A, t, p, q, p2, x.neg);
  }

  function NumTail(x: Numeral): string {
    FracText(x) + ExpText(x)
  }

  lemma NumSplit(t: string, p: nat, x: Numeral, rest: string)
    requires NumOk(x) && p <= |t| && t[p..] == NumText(x) + rest
    ensures var q := if x.neg then p + 1 else p;
            && q < |t| && t[q..] == x.whole + (NumTail(x) + rest) && t[p..p + |NumText(x)|] == NumText(x)
            && |NumText(x)| == q - p + |x.whole| + |NumTail(x)| && (x.neg <==> t[p] == '-') && t[q] == x.whole[0]
            && p + |NumText(x)| <= |t| && t[p + |NumText(x)|..] == rest && t[q + |x.whole|..] == NumTail(x) + rest
  {
    hide Val, FracText, ExpText;
    var minus, tail := if x.neg then "-" else "", NumTail(x);
    Thirds(t, p, minus, x.whole, tail, rest);
    assert t[p] == t[p..][0];
  }

  lemma Thirds(t: string, p: nat, a: string, b: string, c: string, rest: string)
    requires p <= |t| && t[p..] == a + b + c + rest && b != ""
    ensures p + |a| + |b| + |c| <= |t| && t[p..p + |a| + |b| + |c|] == a + b + c
    ensures t[p + |a|..] == b + (c + rest) && t[p + |a| + |b|..] == c + rest && t[p + |a| + |b| + |c|..] == rest
    ensures t[p + |a|] == b[0]
  {
    var all := a + b + c;
    assert t[p + |all|..] == t[p..][|all|..] && t[p..p + |all|] == t[p..][..|all|];
    assert t[p + |a|..] == t[p..][|a|..] && t[p + |a| + |b|..] == t[p..][|a| + |b|..];
    assert t[p + |a|] == t[p..][|a|];
  }

  /** The whole part: its first digit, and where the scan of the others ends. */
  lemma WholeAt(t: string, q: nat, ds: string, behind: string)
    requires q <= |t| && t[q..] == ds + behind && ds != "" && AllDigits(ds) && (ds[0] == '0' ==> |ds| == 1)
    requires behind != "" ==> !IsDigit(behind[0])
    ensures q + |ds| <= |t| && t[q] == ds[0] && IsDigit(t[q]) && t[q + |ds|..] == behind
    ensures t[q + 1..q + |ds|] == ds[1..]
    ensures q + |ds| == if Digit(t[q]) != 0 then SkipDigits(t, q + 1) else q + 1
  {
    hide SkipDigits;
    assert t[q] == t[q..][0];
    assert t[q + 1..] == ds[1..] + behind && t[q + |ds|..] == t[q..][|ds|..];
    assert forall i | 0 <= i < |ds| :: t[q + i] == t[q..][i] == ds[i];
    assert t[q + 1..q + |ds|] == ds[1..];
    SkipAll(t, q + 1, ds[1..], behind);
  }

  /** Behind the whole part: a fraction up to `p3`, an exponent up to `p5`, one of them at least. */
  predicate RealAt(t: string, p2: nat, p3: nat, p5: nat) {
    && p2 < |t| && (p3 > p2 || p5 > p3) && p3 == (if t[p2] == '.' then SkipDigits(t, p2 + 1) else p2)
    && if At(t, p3) == 'E' || At(t, p3) == 'e' then
         && p3 + 1 < |t| && (t[p3 + 1] == '-' || t[p3 + 1] == '+' || IsDigit(t[p3 + 1]))
         && p5 == SkipDigits(t, if IsDigit(t[p3 + 1]) then p3 + 1 else p3 + 2) <= |t|
       else p5 == p3 <= |t|
  }

  lemma RealScan(t: string, p2: nat, x: Numeral, rest: string)
    requires NumOk(x) && (x.frac.Some? || x.exp.Some?) && p2 <= |t| && t[p2..] == NumTail(x) + rest
    requires var c := At(t, p2 + |NumTail(x)|); !IsDigit(c) && c != '.' && c != 'e' && c != 'E'
    ensures RealAt(t, p2, p2 + |FracText(x)|, p2 + |NumTail(x)|)
  {
    hide ExpText, FracText, NumOk, RealAt, ExpOk, IsDigit;
    PartsOk(x);
    Halves(t, p2, FracText(x), ExpText(x), rest);
    Begins(t, p2 + |NumTail(x)|, rest);
    if x.exp.Some? { WithExp(t, p2, x, rest); } else { WithoutExp(t, p2, x, rest); }
  }

  lemma WithExp(t: string, p2: nat, x: Numeral, rest: string)
    requires x.exp.Some? && ExpOk(x.exp.value) && (x.frac.Some? ==> AllDigits(x.frac.value))
    requires var p3 := p2 + |FracText(x)|;
             p3 <= |t| && t[p2..] == FracText(x) + (ExpText(x) + rest) && t[p3..] == ExpText(x) + rest
    requires rest != "" ==> !IsDigit(rest[0])
    ensures RealAt(t, p2, p2 + |FracText(x)|, p2 + |FracText(x)| + |ExpText(x)|)
  {
    hide SkipDigits, AllDigits, FracText, RealAt;
    var e := x.exp.value;
    assert ExpText(x) + rest == [e.e] + e.sign + e.digits + rest;
    FracEnds(t, p2, x, ExpText(x) + rest);
    ExpScan(t, p2 + |FracText(x)|, e, rest);
    RealFrom(t, p2, p2 + |FracText(x)|, p2 + |FracText(x)| + |ExpText(x)|);
  }

  lemma WithoutExp(t: string, p2: nat, x: Numeral, rest: string)
    requires x.exp.None? && x.frac.Some? && AllDigits(x.frac.value)
    requires p2 <= |t| && t[p2..] == FracText(x) + ExpText(x) + rest
    requires rest != "" ==> !IsDigit(rest[0]) && rest[0] != 'e' && rest[0] != 'E'
    ensures RealAt(t, p2, p2 + |FracText(x)|, p2 + |FracText(x) + ExpText(x)|)
  {
    hide SkipDigits, AllDigits, FracText, RealAt;
    assert FracText(x) + ExpText(x) + rest == FracText(x) + rest;
    FracEnds(t, p2, x, rest);
    var p3 := p2 + |FracText(x)|;
    assert t[p3..] == t[p2..][|FracText(x)|..] == rest;
    Begins(t, p3, rest);
    RealFrom(t, p2, p3, p3);
  }

  lemma Begins(t: string, p: nat, rest: string)
    requires p <= |t| && t[p..] == rest
    ensures At(t, p) == if rest == "" then '\0' else rest[0]
  {
    if rest != "" { assert t[p] == t[p..][0]; }
  }

  lemma RealFrom(t: string, p2: nat, p3: nat, p5: nat)
    requires p2 < |t| && (p3 > p2 || p5 > p3) && p3 == (if t[p2] == '.' then SkipDigits(t, p2 + 1) else p2)
    requires if At(t, p3) == 'E' || At(t, p3) == 'e' then
               && p3 + 1 < |t| && (t[p3 + 1] == '-' || t[p3 + 1] == '+' || IsDigit(t[p3 + 1]))
               && p5 == SkipDigits(t, if IsDigit(t[p3 + 1]) then p3 + 1 else p3 + 2) <= |t|
             else p5 == p3 <= |t|
    ensures RealAt(t, p2, p3, p5)
  {
    hide SkipDigits;
  }

  /** Where the fraction ends, if there is one. */
  lemma FracEnds(t: string, p2: nat, x: Numeral, behind: string)
    requires p2 <= |t| && t[p2..] == FracText(x) + behind && (x.frac.Some? ==> AllDigits(x.frac.value))
    requires behind != "" ==> !IsDigit(behind[0])
    requires x.frac.None? ==> behind != "" && behind[0] != '.'
    ensures p2 < |t| && p2 + |FracText(x)| == (if t[p2] == '.' then SkipDigits(t, p2 + 1) else p2)
    ensures x.frac.Some? ==> |FracText(x)| > 0
  {
    hide SkipDigits;
    assert t[p2] == t[p2..][0];
    if x.frac.Some? {
      FracScan(t, p2, x, behind);
    } else {
      assert "" + behind == behind;
    }
  }

  lemma PartsOk(x: Numeral)
    requires NumOk(x)
    ensures x.frac.Some? ==> x.frac.value != "" && AllDigits(x.frac.value)
    ensures x.exp.Some? ==> ExpOk(x.exp.value) && ExpText(x) != "" && (ExpText(x)[0] == 'e' || ExpText(x)[0] == 'E')
    ensures x.exp.Some? ==> ExpText(x) == [x.exp.value.e] + x.exp.value.sign + x.exp.value.digits
    ensures x.exp.None? ==> ExpText(x) == ""
  {
  }

  lemma Halves(t: string, p: nat, a: string, b: string, rest: string)
    requires p <= |t| && t[p..] == a + b + rest
    ensures p + |a| + |b| <= |t| && t[p + |a|..] == b + rest && t[p + |a| + |b|..] == rest
    ensures t[p..] == a + (b + rest)
  {
    assert t[p + |a|..] == t[p..][|a|..] && t[p + |a| + |b|..] == t[p..][|a| + |b|..];
  }

  lemma FracScan(t: string, p2: nat, x: Numeral, behind: string)
    requires x.frac.Some? && AllDigits(x.frac.value) && p2 <= |t| && t[p2..] == "." + x.frac.value + behind
    requires behind != "" ==> !IsDigit(behind[0])
    ensures p2 < |t| && t[p2] == '.' && SkipDigits(t, p2 + 1) == p2 + 1 + |x.frac.value|
  {
    hide SkipDigits;
    assert t[p2] == t[p2..][0] && t[p2 + 1..] == t[p2..][1..] == x.frac.value + behind;
    SkipAll(t, p2 + 1, x.frac.value, behind);
  }

  lemma ExpScan(t: string, p3: nat, x: Exponent, rest: string)
    requires ExpOk(x)
    requires p3 <= |t| && t[p3..] == [x.e] + x.sign + x.digits + rest && (rest != "" ==> !IsDigit(rest[0]))
    ensures p3 + 1 < |t| && t[p3] == x.e && (t[p3 + 1] == '-' || t[p3 + 1] == '+' || IsDigit(t[p3 + 1]))
    ensures SkipDigits(t, if IsDigit(t[p3 + 1]) then p3 + 1 else p3 + 2) == p3 + 1 + |x.sign| + |x.digits|
  {
    hide SkipDigits;
    assert t[p3] == t[p3..][0] && t[p3 + 1] == t[p3..][1];
    var q := p3 + 1 + |x.sign|;
    assert t[q..] == t[p3..][1 + |x.sign|..] == x.digits + rest;
    SkipAll(t, q, x.digits, rest);
  }

  /** A number with a fraction or an exponent. */
  lemma ScanReal(A: Arith, t: string, p: nat, q: nat, p2: nat, p3: nat, p5: nat, neg: bool)
    requires p <= q < |t| && q == (if neg then p + 1 else p) && (neg <==> t[p] == '-') && IsDigit(t[q]) && q < p2
    requires p2 == (if Digit(t[q]) != 0 then SkipDigits(t, q + 1) else q + 1) && RealAt(t, p2, p3, p5)
    ensures ScanNum(A, t, p) == Some(Number(A.frac(t[p..p5]), p5))
  {
    hide Digits, SkipDigits, Plain;
  }

  /** A number without fraction and exponent. */
  lemma ScanPlain(A: Arith, t: string, p: nat, q: nat, next: nat, neg: bool)
    requires p <= q < |t| && q == (if neg then p + 1 else p) && (neg <==> t[p] == '-') && IsDigit(t[q])
             && q < next <= |t|
    requires next == if Digit(t[q]) != 0 then SkipDigits(t, q + 1) else q + 1
    requires var c := At(t, next); c != '.' && c != 'e' && c != 'E'
    ensures ScanNum(A, t, p) == Some(Plain(A, neg, Digits(A, t[q + 1..next], Digit(t[q])), t[p..next], next))
  {
    hide Digits, SkipDigits, Plain;
    if next == q + 1 {
      assert t[q + 1..next] == "";
      NoDigits(A, Digit(t[q]));
    }
  }

  lemma NoDigits(A: Arith, v: int)
    ensures Digits(A, "", v) == v
  {
  }

  /* ---- values ---- */

  /** What the first token of a value can look like. */
  predicate StartsValue(tok: string) {
    GoodTok(tok) && tok[0] != ',' && tok[0] != ']' && tok[0] != '}' && tok[0] != ':'
  }

  predicate Numbered(x: Text) {
    x.TNum? ==> NumOk(x.n)
  }

  lemma TokensStart(x: Text)
    requires Numbered(x)
    ensures |Tokens(x)| > 0 && StartsValue(Tokens(x)[0])
  {
    hide Val;
  }

  /** The tokens behind an item: a comma and more items, or nothing. */
  function MoreItems(items: seq<Text>): seq<string> {
    if items == [] then [] else [","] + ItemTokens(items)
  }

  lemma ItemsSplit(items: seq<Text>)
    requires items != []
    ensures ItemTokens(items) == Tokens(items[0]) + MoreItems(items[1..])
  {
    hide Tokens;
    var first, rest := Tokens(items[0]), items[1..];
    if |items| == 1 {
      assert rest == [];
      Plus(first, [], []);
    } else {
      Plus(first, [","], ItemTokens(rest));
    }
  }

  lemma Plus(a: seq<string>, b: seq<string>, c: seq<string>)
    ensures a + b + c == a + (b + c) && a + [] == a
  {
  }

  /** A single token that is a value. */
  lemma Literal(A: Arith, t: string, pos: nat, brk: string, vals: seq<JVal>, x: Text, more: seq<string>,
                ws: seq<string>) returns (last: nat)
    requires Exact(A) && TextOk(x) && (x.TNull? || x.TBool? || x.TNum? || x.TStr?)
    requires From(t, pos, Tokens(x) + more, ws) && Follows(more)
    requires brk != [] && Top(brk) != '{' && (Top(brk) == '\0' ==> vals == [])
    ensures last < |t| && Loop(A, t, pos, brk, vals) == Push(A, t, last, brk, vals + [Means(A, x)])
    ensures |Tokens(x)| == 1 && From(t, last + 1, more, ws[1..])
  {
    hide Push, Loop, SkipWs, Spaced, StrText, Top, From, Exact, NumText, NumOk, NumMeans, StrMeans, StrOk;
    var tok := Tokens(x)[0];
    TokensStart(x);
    assert Tokens(x) + more == [tok] + more;
    var p := NextTokIs(t, pos, tok, more, ws);
    last := p + |tok| - 1;
    match x
    case TNum(n) => LiteralNum(A, t, pos, p, brk, vals, n, more, ws[1..]);
    case TStr(cs) => LiteralStr(A, t, pos, p, brk, vals, cs);
    case TNull => LoopWord(A, t, pos, p, brk, vals, JNull, tok);
    case TBool(b) => LoopWord(A, t, pos, p, brk, vals, JBool(b), tok);
  }

  lemma LiteralNum(A: Arith, t: string, pos: nat, p: nat, brk: string, vals: seq<JVal>, x: Numeral, more: seq<string>,
                   ws: seq<string>)
    requires Exact(A) && NumOk(x) && Follows(more)
    requires pos <= |t| && p == SkipWs(t, pos) && p + |NumText(x)| <= |t| && p < |t|
             && t[p..p + |NumText(x)|] == NumText(x) && From(t, p + |NumText(x)|, more, ws)
    requires brk != [] && Top(brk) != '{' && (Top(brk) == '\0' ==> vals == [])
    ensures |NumText(x)| > 0
            && Loop(A, t, pos, brk, vals) == Push(A, t, p + |NumText(x)| - 1, brk, vals + [NumMeans(A, x)])
  {
    hide Push, NumText, Loop, ScanNum, SkipWs, Top, Exact, From, NumMeans, NumOk;
    var rest := t[p + |NumText(x)|..];
    TokThen(t, p, NumText(x), rest);
    Ends(t, p + |NumText(x)|, more, ws);
    ScanNumeral(A, t, p, x, rest);
    LoopNum(A, t, pos, p, brk, vals, NumMeans(A, x), p + |NumText(x)|);
  }

  lemma LiteralStr(A: Arith, t: string, pos: nat, p: nat, brk: string, vals: seq<JVal>, cs: seq<Spelling>)
    requires StrOk(cs) && pos <= |t| && p == SkipWs(t, pos) && p + |Quoted(cs)| <= |t| && p < |t|
             && t[p..p + |Quoted(cs)|] == Quoted(cs)
    requires brk != [] && Top(brk) != '{' && (Top(brk) == '\0' ==> vals == [])
    ensures |Quoted(cs)| > 0
            && Loop(A, t, pos, brk, vals) == Push(A, t, p + |Quoted(cs)| - 1, brk, vals + [JStr(StrMeans(cs))])
  {
    hide Push, Loop, ScanStr, SkipWs, Top, StrOk, StrText, StrMeans;
    var rest := t[p + |Quoted(cs)|..];
    TokThen(t, p, Quoted(cs), rest);
    QuotedScan(t, p, cs, rest);
    LoopStr(A, t, pos, p, brk, vals, StrMeans(cs), p + |Quoted(cs)| - 1);
  }

  lemma TokThen(t: string, p: nat, tok: string, rest: string)
    requires p + |tok| <= |t| && t[p..p + |tok|] == tok && t[p + |tok|..] == rest
    ensures t[p..] == tok + rest
  {
  }

  lemma QuoteThen(t: string, p: nat, cs: seq<Spelling>, rest: string)
    requires p < |t| && t[p..] == Quoted(cs) + rest
    ensures t[p + 1..] == StrText(cs) + ("\"" + rest) && |Quoted(cs)| == |StrText(cs)| + 2 && t[p] == '"'
  {
    assert t[p + 1..] == t[p..][1..];
    assert t[p] == t[p..][0];
  }

  lemma QuotedScan(t: string, p: nat, cs: seq<Spelling>, rest: string)
    requires StrOk(cs) && p < |t| && t[p..] == Quoted(cs) + rest
    ensures |Quoted(cs)| == |StrText(cs)| + 2 && t[p] == '"'
            && ScanStr(t, p + 1, "") == Some(Scanned(StrMeans(cs), p + |Quoted(cs)| - 1))
  {
    hide StrText, ScanStr, StrOk, StrMeans;
    QuoteThen(t, p, cs, rest);
    ScanSpelled(t, p + 1, cs, "", rest);
    assert "" + StrMeans(cs) == StrMeans(cs);
  }

  lemma LoopNum(A: Arith, t: string, pos: nat, p: nat, brk: string, vals: seq<JVal>, v: JVal, next: nat)
    requires pos <= |t| && p == SkipWs(t, pos) < |t| && brk != [] && Top(brk) != '{'
             && (Top(brk) == '\0' ==> vals == [])
    requires (IsDigit(t[p]) || t[p] == '-') && ScanNum(A, t, p) == Some(Number(v, next))
    ensures p < next <= |t| && Loop(A, t, pos, brk, vals) == Push(A, t, next - 1, brk, vals + [v])
  {
    hide Push;
  }

  lemma LoopStr(A: Arith, t: string, pos: nat, p: nat, brk: string, vals: seq<JVal>, s: string, quote: nat)
    requires pos <= |t| && p == SkipWs(t, pos) < |t| && brk != [] && Top(brk) != '{'
             && (Top(brk) == '\0' ==> vals == [])
    requires t[p] == '"' && ScanStr(t, p + 1, "") == Some(Scanned(s, quote))
    ensures quote < |t| && Loop(A, t, pos, brk, vals) == Push(A, t, quote, brk, vals + [JStr(s)])
  {
    hide Push;
  }

  lemma LoopWord(A: Arith, t: string, pos: nat, p: nat, brk: string, vals: seq<JVal>, v: JVal, w: string)
    requires pos <= |t| && p == SkipWs(t, pos) < |t| && brk != [] && Top(brk) != '{'
             && (Top(brk) == '\0' ==> vals == [])
    requires (v == JNull && w == "null") || (v == JBool(true) && w == "true") || (v == JBool(false) && w == "false")
    requires p + |w| <= |t| && t[p..p + |w|] == w && t[p] == w[0]
    ensures Loop(A, t, pos, brk, vals) == Push(A, t, p + |w| - 1, brk, vals + [v])
  {
    hide Push, ScanStr, ScanNum, SkipWs;
    assert !Word(t, p, "null") || w == "null" by { if Word(t, p, "null") { assert t[p] == t[p..p + 4][0]; } }
    assert !Word(t, p, "true") || w == "true" by { if Word(t, p, "true") { assert t[p] == t[p..p + 4][0]; } }
  }

  /* ---- arrays ---- */

  /** Opening and closing brackets. */
  lemma LoopOpen(A: Arith, t: string, pos: nat, p: nat, brk: string, vals: seq<JVal>, c: char)
    requires pos <= |t| && p == SkipWs(t, pos) < |t| && brk != [] && Top(brk) != '{'
             && (Top(brk) == '\0' ==> vals == [])
    requires t[p] == c && (c == '[' || c == '{')
    ensures Loop(A, t, pos, brk, vals) == Loop(A, t, p + 1, brk + [c], vals + [if c == '[' then JArr([])
            else JDict([])])
  {
    hide Push, ScanStr, ScanNum, SkipWs;
  }

  lemma LoopClose(A: Arith, t: string, pos: nat, p: nat, brk: string, vals: seq<JVal>, c: char)
    requires pos <= |t| && p == SkipWs(t, pos) < |t| && brk != [] && (c == '[' || c == '{')
    requires t[p] == if c == '[' then ']' else '}'
    ensures Loop(A, t, pos, brk + [c], vals) == Push(A, t, p, brk, vals)
  {
    hide Push, ScanStr, ScanNum, SkipWs;
    assert Pop(brk + [c]) == brk;
  }

  /** Behind an item: the loop goes on at the next item or at the closing bracket. */
  lemma NextIs(t: string, last: nat, rev: char, toks: seq<string>, ws: seq<string>) returns (p: nat, ws': seq<string>)
    requires last < |t| && From(t, last + 1, toks, ws) && toks != [] && GoodTok(toks[0]) && rev != ','
    requires toks[0] == [rev]
             || (toks[0] == "," && |toks| > 1 && GoodTok(toks[1]) && toks[1][0] != rev && toks[1][0] != ',')
    ensures NextItem(t, last, rev) == Go(p) && p < |t|
    ensures From(t, p, if toks[0] == [rev] then toks else toks[1..], ws')
    ensures |ws| > 1 && ws' == [""] + (if toks[0] == [rev] then ws[1..] else ws[2..])
  {
    hide SkipWs, Spaced;
    p := NextTok(t, last + 1, toks, ws);
    ws' := [""] + ws[1..];
    if toks[0] == [rev] {
      StayAt(t, p);
    } else {
      var q := NextTok(t, p + 1, toks[1..], ws[1..]);
      p, ws' := q, [""] + ws[1..][1..];
      assert ws[1..][1..] == ws[2..];
    }
  }

  lemma StayAt(t: string, p: nat)
    requires p < |t| && !IsWs(t[p])
    ensures SkipWs(t, p) == p
  {
  }

  /** Attaching an item to the array under it, and going on behind it. */
  lemma PushItem(A: Arith, t: string, last: nat, brk: string, vals: seq<JVal>, done: seq<JVal>, x: JVal, p: nat)
    requires last < |t| && NextItem(t, last, ']') == Go(p)
    ensures Push(A, t, last, brk + ['['], vals + [JArr(done)] + [x])
            == Loop(A, t, p, brk + ['['], vals + [JArr(done + [x])])
  {
    hide Loop, NextItem;
    var all := vals + [JArr(done)] + [x];
    assert all[..|all| - 2] == vals && all[|all| - 2] == JArr(done);
  }

  /** The parser of values, for every text. */
  lemma {:induction false} ValueParses(A: Arith, t: string, pos: nat, brk: string, vals: seq<JVal>, x: Text,
                                       more: seq<string>, ws: seq<string>) returns (last: nat)
    requires Exact(A) && TextOk(x)
    requires From(t, pos, Tokens(x) + more, ws) && Follows(more)
    requires brk != [] && Top(brk) != '{' && (Top(brk) == '\0' ==> vals == [])
    ensures last < |t| && Loop(A, t, pos, brk, vals) == Push(A, t, last, brk, vals + [Means(A, x)])
    ensures From(t, last + 1, more, ws[|Tokens(x)|..])
    decreases x
  {
    hide Loop, Push, SkipWs, Spaced, Exact, From, Tokens, ItemTokens, PairTokens, Dictionary;
    if x.TArr? {
      var body := ItemTokens(x.items) + ["]"] + more;
      ArrToks(x.items, more);
      var p := NextTokIs(t, pos, "[", body, ws);
      LoopOpen(A, t, pos, p, brk, vals, '[');
      last := ItemsParse(A, t, p + 1, brk, vals, [], x.items, more, ws[1..]);
      assert [] + ItemsMean(A, x.items) == ItemsMean(A, x.items);
      assert ws[1..][|ItemTokens(x.items)| + 1..] == ws[|Tokens(x)|..];
    } else if x.TDict? {
      var body := PairTokens(x.entries) + ["}"] + more;
      DictToks(x.entries, more);
      var p := NextTokIs(t, pos, "{", body, ws);
      LoopOpen(A, t, pos, p, brk, vals, '{');
      last := EntriesParse(A, t, p + 1, brk, vals, [], x.entries, more, ws[1..]);
      SetAllIs(PairsMean(A, x.entries));
      assert ws[1..][|PairTokens(x.entries)| + 1..] == ws[|Tokens(x)|..];
    } else {
      last := Literal(A, t, pos, brk, vals, x, more, ws);
    }
  }

  lemma ArrToks(items: seq<Text>, more: seq<string>)
    ensures var body := ItemTokens(items) + ["]"] + more;
            Tokens(TArr(items)) + more == ["["] + body && (["["] + body)[1..] == body
    ensures |Tokens(TArr(items))| == |ItemTokens(items)| + 2
  {
    hide ItemTokens;
  }

  lemma DictToks(entries: seq<Pair>, more: seq<string>)
    ensures var body := PairTokens(entries) + ["}"] + more;
            Tokens(TDict(entries)) + more == ["{"] + body && (["{"] + body)[1..] == body
    ensures |Tokens(TDict(entries))| == |PairTokens(entries)| + 2
  {
    hide PairTokens;
  }

  lemma FromSize(t: string, pos: nat, toks: seq<string>, ws: seq<string>)
    requires From(t, pos, toks, ws)
    ensures |ws| == |toks| + 1
  {
  }

  /** Which whitespace is left behind the first item's tokens, and behind all of them. */
  lemma WsLeft(ws: seq<string>, ws': seq<string>, first: nat, rest: nat, one: bool)
    requires first + rest + 2 <= |ws| && (if one then rest == 0 else |ws| >= first + rest + 3)
    requires ws' == [""] + (if one then ws[first..][1..] else ws[first..][2..])
    ensures ws'[rest + 1..] == ws[first + rest + (if one then 1 else 2)..]
  {
  }

  lemma NextTokIs(t: string, pos: nat, tok: string, rest: seq<string>, ws: seq<string>) returns (p: nat)
    requires From(t, pos, [tok] + rest, ws) && GoodTok(tok)
    ensures p == SkipWs(t, pos) && p + |tok| <= |t| && t[p..p + |tok|] == tok && p < |t| && t[p] == tok[0]
    ensures |ws| > 0 && From(t, p + |tok|, rest, ws[1..])
  {
    assert ([tok] + rest)[1..] == rest;
    p := NextTok(t, pos, [tok] + rest, ws);
  }

  lemma {:induction false} ItemsParse(A: Arith, t: string, pos: nat, brk: string, vals: seq<JVal>, done: seq<JVal>,
                                      items: seq<Text>, more: seq<string>, ws: seq<string>)
    returns (last: nat)
    requires Exact(A) && ItemsOk(items) && brk != []
    requires From(t, pos, ItemTokens(items) + ["]"] + more, ws) && Follows(more)
    ensures last < |t| && Loop(A, t, pos, brk + ['['], vals + [JArr(done)])
            == Push(A, t, last, brk, vals + [JArr(done + ItemsMean(A, items))])
    ensures From(t, last + 1, more, ws[|ItemTokens(items)| + 1..])
    decreases items, 1
  {
    hide Loop, Push, SkipWs, Spaced, Exact, From, Means, TextOk, Tokens;
    if items == [] {
      assert [] + ["]"] + more == ["]"] + more;
      last := NextTokIs(t, pos, "]", more, ws);
      LoopClose(A, t, pos, last, brk, vals + [JArr(done)], '[');
      assert done + [] == done;
    } else {
      if |items| > 1 { NextNumbered(items); }
      var p, ws' := ItemParses(A, t, pos, brk, vals, done, items, more, ws);
      last := ItemsParse(A, t, p, brk, vals, done + [Means(A, items[0])], items[1..], more, ws');
      assert (done + [Means(A, items[0])]) + ItemsMean(A, items[1..]) == done + ItemsMean(A, items);
    }
  }

  lemma NextNumbered(items: seq<Text>)
    requires ItemsOk(items) && |items| > 1
    ensures Numbered(items[1])
  {
    hide NumOk;
    var rest := items[1..];
    assert ItemsOk(rest) && rest[0] == items[1];
    assert TextOk(rest[0]);
  }

  /** One item, and what leads to the next one or the bracket. */
  lemma {:induction false} ItemParses(A: Arith, t: string, pos: nat, brk: string, vals: seq<JVal>, done: seq<JVal>,
                                      items: seq<Text>, more: seq<string>, ws: seq<string>)
    returns (p: nat, ws': seq<string>)
    requires Exact(A) && items != [] && TextOk(items[0]) && brk != [] && (|items| > 1 ==> Numbered(items[1]))
    requires From(t, pos, ItemTokens(items) + ["]"] + more, ws)
    ensures p <= |t| && Loop(A, t, pos, brk + ['['], vals + [JArr(done)])
            == Loop(A, t, p, brk + ['['], vals + [JArr(done + [Means(A, items[0])])])
    ensures From(t, p, ItemTokens(items[1..]) + ["]"] + more, ws')
    ensures |ItemTokens(items)| < |ws| && |ItemTokens(items[1..])| < |ws'|
    ensures ws'[|ItemTokens(items[1..])| + 1..] == ws[|ItemTokens(items)| + 1..]
    decreases items, 0
  {
    hide Loop, Push, SkipWs, Spaced, Exact, From, Tokens, ItemTokens, MoreItems, NextItem, Means, TextOk;
    var x, rest := items[0], items[1..];
    var tail := MoreItems(rest) + ["]"] + more;
    ItemFirst(items, more);
    var inner := vals + [JArr(done)];
    AfterItem(rest, more);
    var last := ValueParses(A, t, pos, brk + ['['], inner, x, tail, ws);
    FromSize(t, pos, Tokens(x) + tail, ws);
    p, ws' := NextIs(t, last, ']', tail, ws[|Tokens(x)|..]);
    PushItem(A, t, last, brk, vals, done, Means(A, x), p);
    FromSize(t, p, ItemTokens(rest) + ["]"] + more, ws');
    MoreItemsSize(rest);
    WsLeft(ws, ws', |Tokens(x)|, |ItemTokens(rest)|, rest == []);
  }

  lemma ItemFirst(items: seq<Text>, more: seq<string>)
    requires items != []
    ensures ItemTokens(items) + ["]"] + more == Tokens(items[0]) + (MoreItems(items[1..]) + ["]"] + more)
    ensures |ItemTokens(items)| == |Tokens(items[0])| + |MoreItems(items[1..])|
  {
    hide ItemTokens, MoreItems, Tokens;
    ItemsSplit(items);
    Regroup([], Tokens(items[0]), MoreItems(items[1..]), ["]"], more);
    assert [] + Tokens(items[0]) == Tokens(items[0]);
  }

  lemma MoreItemsSize(items: seq<Text>)
    ensures |MoreItems(items)| == if items == [] then 0 else 1 + |ItemTokens(items)|
    ensures items == [] ==> ItemTokens(items) == []
  {
  }

  /** The tokens behind an item of an array. */
  lemma AfterItem(rest: seq<Text>, more: seq<string>)
    requires rest != [] ==> Numbered(rest[0])
    ensures var tail, next := MoreItems(rest) + ["]"] + more, ItemTokens(rest) + ["]"] + more;
            && GoodTok(tail[0])
            && if rest == [] then tail[0] == "]" && tail == next
               else tail[0] == "," && |tail| > 1 && StartsValue(tail[1]) && tail[1..] == next
  {
    hide ItemTokens, StartsValue, Numbered;
    if rest == [] {
      NoItems();
    } else {
      FirstItem(rest);
      assert (MoreItems(rest) + ["]"] + more)[1..] == ItemTokens(rest) + ["]"] + more;
    }
  }

  lemma NoItems()
    ensures ItemTokens([]) == []
  {
  }

  lemma FirstItem(items: seq<Text>)
    requires items != [] && Numbered(items[0])
    ensures ItemTokens(items) != [] && StartsValue(ItemTokens(items)[0])
  {
    hide Tokens, StartsValue, Numbered;
    ItemsSplit(items);
    TokensStart(items[0]);
  }

  /* ---- dictionaries ---- */

  function MorePairs(ps: seq<Pair>): seq<string> {
    if ps == [] then [] else [","] + PairTokens(ps)
  }

  lemma PairsSplit(ps: seq<Pair>)
    requires ps != []
    ensures PairTokens(ps) == [Quoted(ps[0].key), ":"] + Tokens(ps[0].value) + MorePairs(ps[1..])
  {
    hide Tokens, Quoted;
    var first, rest := [Quoted(ps[0].key), ":"] + Tokens(ps[0].value), ps[1..];
    if |ps| == 1 {
      assert rest == [];
      Plus(first, [], []);
    } else {
      Plus(first, [","], PairTokens(rest));
    }
  }

  lemma PairFirst(ps: seq<Pair>, more: seq<string>)
    requires ps != []
    ensures PairTokens(ps) + ["}"] + more == [Quoted(ps[0].key), ":"]
            + (Tokens(ps[0].value) + (MorePairs(ps[1..]) + ["}"] + more))
    ensures |PairTokens(ps)| == 2 + |Tokens(ps[0].value)| + |MorePairs(ps[1..])|
  {
    hide PairTokens, MorePairs, Tokens, Quoted;
    PairsSplit(ps);
    Regroup([Quoted(ps[0].key), ":"], Tokens(ps[0].value), MorePairs(ps[1..]), ["}"], more);
  }

  lemma Regroup(a: seq<string>, b: seq<string>, c: seq<string>, d: seq<string>, e: seq<string>)
    ensures a + b + c + d + e == a + (b + (c + d + e))
  {
  }

  lemma AfterEntry(rest: seq<Pair>, more: seq<string>)
    ensures var tail, next := MorePairs(rest) + ["}"] + more, PairTokens(rest) + ["}"] + more;
            && GoodTok(tail[0])
            && if rest == [] then tail[0] == "}" && tail == next
               else tail[0] == "," && |tail| > 1 && StartsValue(tail[1]) && tail[1..] == next
  {
    hide PairTokens, StartsValue;
    if rest == [] {
      NoPairs();
    } else {
      FirstPair(rest);
      assert (MorePairs(rest) + ["}"] + more)[1..] == PairTokens(rest) + ["}"] + more;
    }
  }

  lemma NoPairs()
    ensures PairTokens([]) == []
  {
  }

  lemma FirstPair(ps: seq<Pair>)
    requires ps != []
    ensures PairTokens(ps) != [] && StartsValue(PairTokens(ps)[0])
  {
    hide Tokens, StrText;
    PairsSplit(ps);
  }

  /** The entries added one after the other. */
  function SetAll(done: seq<Entry>, es: seq<Entry>): seq<Entry>
    decreases |es|
  {
    if es == [] then done else SetAll(SetKey(done, es[0].key, es[0].value), es[1..])
  }

  lemma PushEntry(A: Arith, t: string, last: nat, brk: string, vals: seq<JVal>, done: seq<Entry>, k: string, x: JVal,
                  p: nat)
    requires last < |t| && NextItem(t, last, '}') == Go(p)
    ensures Push(A, t, last, brk + [':'], vals + [JDict(done)] + [JStr(k)] + [x])
            == Loop(A, t, p, brk + ['{'], vals + [JDict(SetKey(done, k, x))])
  {
    hide Loop, NextItem, SetKey;
    var all := vals + [JDict(done)] + [JStr(k)] + [x];
    assert all[..|all| - 3] == vals && all[|all| - 3] == JDict(done);
    assert Pop(brk + [':']) == brk;
  }

  /** A key and its colon. */
  lemma LoopKey(A: Arith, t: string, pos: nat, p: nat, brk: string, vals: seq<JVal>, k: string, quote: nat, q: nat)
    requires pos <= |t| && p == SkipWs(t, pos) < |t| && t[p] == '"' && ScanStr(t, p + 1, "") == Some(Scanned(k, quote))
    requires q == SkipWs(t, quote + 1) && q < |t| && t[q] == ':'
    ensures Loop(A, t, pos, brk + ['{'], vals) == Loop(A, t, q + 1, brk + [':'], vals + [JStr(k)])
  {
    hide Push, ScanStr, ScanNum, SkipWs;
    assert Pop(brk + ['{']) == brk;
  }

  /** The key of the next entry: two tokens. */
  lemma KeyParses(A: Arith, t: string, pos: nat, brk: string, vals: seq<JVal>, k: seq<Spelling>, rest: seq<string>,
                  ws: seq<string>) returns (next: nat)
    requires From(t, pos, [Quoted(k), ":"] + rest, ws) && StrOk(k)
    ensures pos < next <= |t|
            && Loop(A, t, pos, brk + ['{'], vals) == Loop(A, t, next, brk + [':'], vals + [JStr(StrMeans(k))])
    ensures |ws| > 2 && From(t, next, rest, ws[2..])
  {
    hide Loop, Push, SkipWs, Spaced, ScanStr, StrText, From, StrOk, StrMeans;
    assert [Quoted(k), ":"] + rest == [Quoted(k)] + ([":"] + rest);
    var p := NextTokIs(t, pos, Quoted(k), [":"] + rest, ws);
    var after := Spaced([":"] + rest, ws[1..]);
    TokThen(t, p, Quoted(k), after);
    QuotedScan(t, p, k, after);
    var q := NextTokIs(t, p + |Quoted(k)|, ":", rest, ws[1..]);
    assert ws[1..][1..] == ws[2..];
    LoopKey(A, t, pos, p, brk, vals, StrMeans(k), p + 1 + |StrText(k)|, q);
    next := q + 1;
  }

  lemma {:induction false} EntriesParse(A: Arith, t: string, pos: nat, brk: string, vals: seq<JVal>, done: seq<Entry>,
                                        ps: seq<Pair>, more: seq<string>, ws: seq<string>)
    returns (last: nat)
    requires Exact(A) && PairsOk(ps) && brk != []
    requires From(t, pos, PairTokens(ps) + ["}"] + more, ws) && Follows(more)
    ensures last < |t| && Loop(A, t, pos, brk + ['{'], vals + [JDict(done)])
            == Push(A, t, last, brk, vals + [JDict(SetAll(done, PairsMean(A, ps)))])
    ensures From(t, last + 1, more, ws[|PairTokens(ps)| + 1..])
    decreases ps, 1
  {
    hide Loop, Push, SkipWs, Spaced, Exact, From, MorePairs, Tokens, NextItem, Quoted, Means, TextOk, SetKey, StrMeans,
        StrOk;
    if ps == [] {
      assert [] + ["}"] + more == ["}"] + more;
      last := NextTokIs(t, pos, "}", more, ws);
      LoopClose(A, t, pos, last, brk, vals + [JDict(done)], '{');
    } else {
      var p, ws' := EntryParses(A, t, pos, brk, vals, done, ps, more, ws);
      assert ps[0] decreases to ps[0].value;
      var k, x, es := StrMeans(ps[0].key), Means(A, ps[0].value), PairsMean(A, ps);
      last := EntriesParse(A, t, p, brk, vals, SetKey(done, k, x), ps[1..], more, ws');
      assert es[0] == Entry(k, x) && es[1..] == PairsMean(A, ps[1..]);
    }
  }

  /** One entry: its key, its value, and what leads to the next entry or the bracket. */
  lemma {:induction false} EntryParses(A: Arith, t: string, pos: nat, brk: string, vals: seq<JVal>, done: seq<Entry>,
                                       ps: seq<Pair>, more: seq<string>, ws: seq<string>)
    returns (p: nat, ws': seq<string>)
    requires Exact(A) && ps != [] && StrOk(ps[0].key) && TextOk(ps[0].value) && brk != []
    requires From(t, pos, PairTokens(ps) + ["}"] + more, ws)
    ensures p <= |t| && Loop(A, t, pos, brk + ['{'], vals + [JDict(done)])
            == Loop(A, t, p, brk + ['{'], vals + [JDict(SetKey(done, StrMeans(ps[0].key), Means(A, ps[0].value)))])
    ensures From(t, p, PairTokens(ps[1..]) + ["}"] + more, ws')
    ensures |PairTokens(ps)| < |ws| && |PairTokens(ps[1..])| < |ws'|
            && ws'[|PairTokens(ps[1..])| + 1..] == ws[|PairTokens(ps)| + 1..]
    decreases ps, 0
  {
    hide Loop, Push, SkipWs, Spaced, Exact, From, PairTokens, MorePairs, Tokens, NextItem, Quoted, Means, TextOk,
        SetKey,
        StrMeans, StrOk;
    var e, rest := ps[0], ps[1..];
    assert ps[0] decreases to ps[0].value;
    var tail := MorePairs(rest) + ["}"] + more;
    PairFirst(ps, more);
    AfterEntry(rest, more);
    var inner, k := vals + [JDict(done)], StrMeans(e.key);
    var next := KeyParses(A, t, pos, brk, inner, e.key, Tokens(e.value) + tail, ws);
    var last := ValueParses(A, t, next, brk + [':'], inner + [JStr(k)], e.value, tail, ws[2..]);
    FromSize(t, next, Tokens(e.value) + tail, ws[2..]);
    p, ws' := NextIs(t, last, '}', tail, ws[2..][|Tokens(e.value)|..]);
    PushEntry(A, t, last, brk, vals, done, k, Means(A, e.value), p);
    FromSize(t, p, PairTokens(rest) + ["}"] + more, ws');
    MoreSize(rest);
    WsLeft(ws[2..], ws', |Tokens(e.value)|, |PairTokens(rest)|, rest == []);
    assert ws[2..][|Tokens(e.value)| + |PairTokens(rest)| + (if rest == [] then 1
           else 2)..] == ws[|PairTokens(ps)| + 1..];
  }

  lemma MoreSize(ps: seq<Pair>)
    ensures |MorePairs(ps)| == if ps == [] then 0 else 1 + |PairTokens(ps)|
    ensures ps == [] ==> PairTokens(ps) == []
  {
  }

  /* ---- keys that occur more than once ---- */

  lemma {:induction false} WithoutMore(es: seq<Entry>, e: Entry, k: string)
    ensures Without(es + [e], k) == Without(es, k) + if e.key == k then [] else [e]
    decreases |es|
  {
    if es == [] {
      assert ([] + [e])[1..] == [];
    } else {
      assert (es + [e])[1..] == es[1..] + [e];
      WithoutMore(es[1..], e, k);
    }
  }

  lemma LastMore(es: seq<Entry>, e: Entry, k: string)
    ensures LastValue(es + [e], k) == if e.key == k then e.value else LastValue(es, k)
  {
    assert (es + [e])[..|es|] == es;
  }

  lemma DictionaryIs(es: seq<Entry>)
    requires es != []
    ensures Dictionary(es)
            == [Entry(es[0].key, LastValue(es, es[0].key))] + Dictionary(Without(es[1..], es[0].key))
  {
  }

  lemma SetFirst(e: Entry, rest: seq<Entry>, k: string, v: JVal)
    ensures SetKey([e] + rest, k, v) == if e.key == k then [Entry(k, v)] + rest else [e] + SetKey(rest, k, v)
  {
    assert ([e] + rest)[0] == e && ([e] + rest)[1..] == rest;
  }

  lemma {:induction false} DictionaryMore(es: seq<Entry>, e: Entry)
    ensures Dictionary(es + [e]) == SetKey(Dictionary(es), e.key, e.value)
    decreases |es|
  {
    hide LastValue, SetKey, Dictionary, Without;
    DictionaryIs(es + [e]);
    if es == [] {
      LastMore([], e, e.key);
      assert ([] + [e])[1..] == [];
      EmptyDictionary(e.key, e.value);
    } else {
      var k, more := es[0].key, es + [e];
      assert more[1..] == es[1..] + [e] && more[0] == es[0];
      DictionaryIs(es);
      LastMore(es, e, k);
      WithoutMore(es[1..], e, k);
      SetFirst(Entry(k, LastValue(es, k)), Dictionary(Without(es[1..], k)), e.key, e.value);
      if e.key != k { DictionaryMore(Without(es[1..], k), e); } else {
        assert Without(es[1..], k) + [] == Without(es[1..], k);
      }
    }
  }

  lemma EmptyDictionary(k: string, v: JVal)
    ensures Dictionary([]) == [] && Without([], k) == [] && SetKey([], k, v) == [Entry(k, v)]
  {
  }

  lemma {:induction false} SetAllFrom(es: seq<Entry>, i: nat)
    requires i <= |es|
    ensures SetAll(Dictionary(es[..i]), es[i..]) == Dictionary(es)
    decreases |es| - i
  {
    hide SetKey, Dictionary;
    if i == |es| {
      assert es[..i] == es;
    } else {
      assert es[..i + 1] == es[..i] + [es[i]] && es[i..][1..] == es[i + 1..];
      DictionaryMore(es[..i], es[i]);
      SetAllFrom(es, i + 1);
    }
  }

  /** What the decoder makes of entries: every key once, with the last of its values. */
  lemma SetAllIs(es: seq<Entry>)
    ensures SetAll([], es) == Dictionary(es)
  {
    SetAllFrom(es, 0);
    assert es[..0] == [] && es[0..] == es;
  }

  /* ---- every text is read as what it means ---- */

  /** Decoding a text, with any whitespace before, between and behind its tokens, gives what
      the text means. */
  lemma TextDecodes(A: Arith, x: Text, ws: seq<string>)
    requires Exact(A) && TextOk(x) && |ws| == |Tokens(x)| + 1 && WsOnly(ws)
    ensures Decode(A, Spaced(Tokens(x), ws)) == Some(Means(A, x))
  {
    hide Exact, Spaced, Means, Tokens, Loop, Push, TextOk, SkipWs;
    var t := Spaced(Tokens(x), ws);
    assert Tokens(x) + [] == Tokens(x) && t[0..] == t;
    var last := ValueParses(A, t, 0, "\0", [], x, [], ws);
    var ws1 := ws[|Tokens(x)|..];
    NoTok(t, last + 1, ws1);
    TopEnds(A, t, last, Means(A, x));
  }

  lemma TopEnds(A: Arith, t: string, last: nat, v: JVal)
    requires last < |t| && SkipWs(t, last + 1) == |t|
    ensures Push(A, t, last, "\0", [] + [v]) == Some(v)
  {
    assert Loop(A, t, last + 1, "\0", [v]) == Finish("\0", [v]);
  }

  /* ---- what the encoder writes ---- */

  function Spelled(s: string): seq<Spelling> {
    if s == "" then [] else [if s[0] == '"' || s[0] == '\\' then Letter(s[0]) else Raw(s[0])] + Spelled(s[1..])
  }

  /** The text for a value without real numbers. */
  function TextOf(v: JVal): Text
    decreases v
  {
    match v
    case JNull => TNull
    case JBool(b) => TBool(b)
    case JInt(n) => TNum(Numeral(n < 0, Dec(if n < 0 then 0 - n else n), None, None))
    case JReal(_) => TNull
    case JStr(s) => TStr(Spelled(s))
    case JArr(items) => TArr(TextsOf(items))
    case JDict(entries) => TDict(PairsOf(entries))
  }

  function TextsOf(items: seq<JVal>): (r: seq<Text>)
    ensures |r| == |items|
    decreases items
  {
    if items == [] then [] else [TextOf(items[0])] + TextsOf(items[1..])
  }

  function PairsOf(es: seq<Entry>): (r: seq<Pair>)
    ensures |r| == |es|
    decreases es
  {
    if es == [] then []
    else
      assert es[0] decreases to es[0].value;
      [Pair(Spelled(es[0].key), TextOf(es[0].value))] + PairsOf(es[1..])
  }

  predicate NoReals(v: JVal)
    decreases v
  {
    match v
    case JReal(_) => false
    case JArr(items) => NoRealItems(items)
    case JDict(entries) => NoRealEntries(entries)
    case _ => true
  }

  predicate NoRealItems(items: seq<JVal>)
    decreases items
  {
    items != [] ==> NoReals(items[0]) && NoRealItems(items[1..])
  }

  predicate NoRealEntries(es: seq<Entry>)
    decreases es
  {
    es != [] ==> (assert es[0] decreases to es[0].value; NoReals(es[0].value)) && NoRealEntries(es[1..])
  }

  lemma {:induction false} SpelledIs(s: string)
    ensures StrText(Spelled(s)) == Esc(s) && (GoodStr(s) <==> StrOk(Spelled(s)))
    ensures GoodStr(s) ==> StrMeans(Spelled(s)) == s
    decreases |s|
  {
    hide StrOk, GoodStr;
    if s == "" {
      SpelledNone();
    } else {
      SpelledIs(s[1..]);
      SpelledFirst(s);
      if GoodStr(s) { SpelledSplit(Spelled(s)); }
    }
  }

  lemma SpelledNone()
    ensures GoodStr("") && StrOk(Spelled(""))
  {
  }

  lemma SpelledFirst(s: string)
    requires s != ""
    ensures Spelled(s)[1..] == Spelled(s[1..]) && |Spelled(s)| > 0
    ensures GoodStr(s) <==> SpellOk(Spelled(s)[0]) && GoodStr(s[1..])
    ensures StrOk(Spelled(s)) <==> SpellOk(Spelled(s)[0]) && StrOk(Spelled(s)[1..])
    ensures SpellText(Spelled(s)[0]) == (if s[0] == '"' || s[0] == '\\' then ['\\', s[0]] else [s[0]])
    ensures SpellOk(Spelled(s)[0]) ==> SpellMeans(Spelled(s)[0]) == [s[0]]
  {
    hide SpellOk, StrOk, GoodStr, SpellMeans, SpellText;
    var x := if s[0] == '"' || s[0] == '\\' then Letter(s[0]) else Raw(s[0]);
    assert Spelled(s) == [x] + Spelled(s[1..]);
    OkFirst(Spelled(s));
    GoodFirst(s);
    OneSpelled(s[0]);
  }

  lemma OneSpelled(c: char)
    ensures var x := if c == '"' || c == '\\' then Letter(c) else Raw(c);
            && (SpellOk(x) <==> c as int >= 0x20) && (SpellOk(x) ==> SpellMeans(x) == [c])
            && SpellText(x) == if c == '"' || c == '\\' then ['\\', c] else [c]
  {
  }

  lemma GoodFirst(s: string)
    requires s != ""
    ensures GoodStr(s) <==> s[0] as int >= 0x20 && GoodStr(s[1..])
  {
    assert forall i | 0 <= i < |s[1..]| :: s[1..][i] == s[i + 1];
    if s[0] as int >= 0x20 && GoodStr(s[1..]) {
      forall i | 0 <= i < |s| ensures s[i] as int >= 0x20 { if i > 0 { assert s[1..][i - 1] == s[i]; } }
    }
  }

  lemma OkFirst(cs: seq<Spelling>)
    requires cs != []
    ensures StrOk(cs) <==> SpellOk(cs[0]) && StrOk(cs[1..])
  {
    hide SpellOk;
    assert forall i | 0 <= i < |cs[1..]| :: cs[1..][i] == cs[i + 1];
    if SpellOk(cs[0]) && StrOk(cs[1..]) {
      forall i | 0 <= i < |cs| ensures SpellOk(cs[i]) { if i > 0 { assert cs[1..][i - 1] == cs[i]; } }
    }
  }

  lemma {:induction false} DecIs(n: nat)
    ensures AllDigits(Dec(n)) && Val(Dec(n)) == n && (n > 0 ==> Dec(n)[0] != '0')
    decreases n
  {
    if n < 10 {
      assert Dec(n)[..0] == "";
    } else {
      DecIs(n / 10);
      assert Dec(n)[..|Dec(n)| - 1] == Dec(n / 10);
    }
  }

  /** The encoder writes that text, without whitespace. */
  lemma {:induction false} WritesText(A: Arith, v: JVal)
    requires NoReals(v)
    ensures Toks(A, v) == Tokens(TextOf(v))
    decreases v
  {
    match v
    case JInt(n) => assert NumText(TextOf(v).n) == Int(n);
    case JStr(s) => SpelledIs(s);
    case JArr(items) => WritesItems(A, items);
    case JDict(entries) => WritesPairs(A, entries);
    case _ =>
  }

  lemma {:induction false} WritesItems(A: Arith, items: seq<JVal>)
    requires NoRealItems(items)
    ensures ItemToks(A, items) == ItemTokens(TextsOf(items))
    decreases items
  {
    if items != [] {
      WritesText(A, items[0]);
      WritesItems(A, items[1..]);
      assert TextsOf(items)[1..] == TextsOf(items[1..]);
    }
  }

  lemma {:induction false} WritesPairs(A: Arith, es: seq<Entry>)
    requires NoRealEntries(es)
    ensures EntryToks(A, es) == PairTokens(PairsOf(es))
    decreases es
  {
    if es != [] {
      assert es[0] decreases to es[0].value;
      SpelledIs(es[0].key);
      WritesText(A, es[0].value);
      WritesPairs(A, es[1..]);
      assert PairsOf(es)[1..] == PairsOf(es[1..]);
    }
  }

  /* ---- the round trip ---- */

  lemma {:induction false} GoodText(A: Arith, v: JVal)
    requires Good(v)
    ensures NoReals(v) && TextOk(TextOf(v)) && Means(A, TextOf(v)) == v
    decreases v
  {
    match v
    case JInt(n) => DecIs(if n < 0 then 0 - n else n);
    case JStr(s) => SpelledIs(s);
    case JArr(items) => GoodTexts(A, items);
    case JDict(entries) =>
      GoodPairs(A, entries);
      DistinctStay(entries);
    case _ =>
  }

  lemma {:induction false} GoodTexts(A: Arith, items: seq<JVal>)
    requires GoodItems(items)
    ensures NoRealItems(items) && ItemsOk(TextsOf(items)) && ItemsMean(A, TextsOf(items)) == items
    decreases items
  {
    if items != [] {
      GoodText(A, items[0]);
      GoodTexts(A, items[1..]);
      assert TextsOf(items)[1..] == TextsOf(items[1..]);
    }
  }

  lemma {:induction false} GoodPairs(A: Arith, es: seq<Entry>)
    requires GoodEntries(es)
    ensures NoRealEntries(es) && PairsOk(PairsOf(es)) && PairsMean(A, PairsOf(es)) == es
    decreases es
  {
    if es != [] {
      assert es[0] decreases to es[0].value;
      SpelledIs(es[0].key);
      GoodText(A, es[0].value);
      GoodPairs(A, es[1..]);
      assert PairsOf(es)[1..] == PairsOf(es[1..]);
    }
  }

  lemma {:induction false} DistinctStay(es: seq<Entry>)
    requires GoodEntries(es)
    ensures Dictionary(es) == es
    decreases |es|
  {
    hide LastValue, Dictionary, Without, HasKey, Good, GoodStr;
    if es != [] {
      WithoutNone(es[1..], es[0].key);
      OnlyFirst(es, |es|);
      assert es[..|es|] == es;
      DistinctStay(es[1..]);
      DictionaryIs(es);
    } else {
      EmptyDictionary("", JNull);
    }
  }

  lemma {:induction false} WithoutNone(es: seq<Entry>, k: string)
    requires !HasKey(es, k)
    ensures Without(es, k) == es
    decreases |es|
  {
    if es != [] {
      assert es[0].key != k && forall i | 0 <= i < |es[1..]| :: es[1..][i] == es[i + 1];
      WithoutNone(es[1..], k);
    }
  }

  lemma {:induction false} OnlyFirst(es: seq<Entry>, n: nat)
    requires 0 < n <= |es| && !HasKey(es[1..], es[0].key)
    ensures LastValue(es[..n], es[0].key) == es[0].value
    decreases n
  {
    if n > 1 {
      assert es[1..][n - 2] == es[n - 1] && es[..n][..n - 1] == es[..n - 1];
      OnlyFirst(es, n - 1);
    } else {
      assert es[..1][0] == es[0];
    }
    assert es[..|es|] == es;
  }

  /** Decoding a value's tokens with any whitespace before, between and behind them gives the
      value back. */
  lemma RoundTripSpaced(A: Arith, v: JVal, ws: seq<string>)
    requires Exact(A) && Good(v) && |ws| == |Toks(A, v)| + 1 && WsOnly(ws)
    ensures Decode(A, Spaced(Toks(A, v), ws)) == Some(v)
  {
    hide Exact, Spaced, Decode, Toks, Tokens, Means, TextOf, TextOk;
    GoodText(A, v);
    WritesText(A, v);
    TextDecodes(A, TextOf(v), ws);
  }

  lemma {:induction false} JoinIsSpaced(toks: seq<string>, ws: seq<string>)
    requires |ws| == |toks| + 1 && forall i | 0 <= i < |ws| :: ws[i] == ""
    ensures Join(toks) == Spaced(toks, ws)
    decreases |toks|
  {
    if toks != [] { JoinIsSpaced(toks[1..], ws[1..]); }
  }

  /** Decoding the encoder's output gives the value back. */
  lemma RoundTrip(A: Arith, v: JVal)
    requires Exact(A) && Good(v)
    ensures Decode(A, Encode(A, v)) == Some(v)
  {
    hide Decode, Toks;
    var ws := seq(|Toks(A, v)| + 1, _ => "");
    JoinIsSpaced(Toks(A, v), ws);
    RoundTripSpaced(A, v, ws);
  }
}
