/** Which values survive the round trip.  The encoder copies control characters into its
    strings, and the decoder refuses them: of the values that are otherwise in range, exactly
    those without control characters come back, and for the others decoding fails. */
module JsonRefused {
  import opened Json
  import opened JsonText
  import opened JsonProof

  /** Integers of magnitude at most 2^53, any strings, distinct keys. */
  predicate Writable(v: JVal)
    decreases v
  {
    match v
    case JInt(n) => -TWO_53 <= n <= TWO_53
    case JReal(_) => false
    case JArr(items) => WritableItems(items)
    case JDict(entries) => WritableEntries(entries)
    case _ => true
  }

  predicate WritableItems(items: seq<JVal>)
    decreases items
  {
    items != [] ==> Writable(items[0]) && WritableItems(items[1..])
  }

  predicate WritableEntries(es: seq<Entry>)
    decreases es
  {
    es != [] ==>
      && !HasKey(es[1..], es[0].key)
      && (assert es[0] decreases to es[0].value; Writable(es[0].value)) && WritableEntries(es[1..])
  }

  /** Texts whose strings may hold control characters. */
  predicate LooseOk(x: Text)
    decreases x
  {
    match x
    case TNum(n) => NumOk(n)
    case TStr(cs) => LooseStr(cs)
    case TArr(items) => LooseItems(items)
    case TDict(entries) => LoosePairs(entries)
    case _ => true
  }

  predicate LooseItems(items: seq<Text>)
    decreases items
  {
    items != [] ==> LooseOk(items[0]) && LooseItems(items[1..])
  }

  predicate LoosePairs(ps: seq<Pair>)
    decreases ps
  {
    ps != [] ==>
      && LooseStr(ps[0].key) && (assert ps[0] decreases to ps[0].value; LooseOk(ps[0].value)) && LoosePairs(ps[1..])
  }

  predicate LooseStr(cs: seq<Spelling>) {
    forall i | 0 <= i < |cs| :: if cs[i].Raw? then cs[i].c != '"' && cs[i].c != '\\' else SpellOk(cs[i])
  }

  /** The decoder stops at the first control character of a string. */
  lemma {:induction false} ScanControl(t: string, pos: nat, cs: seq<Spelling>, acc: string, rest: string)
    requires pos <= |t| && t[pos..] == StrText(cs) + rest && LooseStr(cs) && !StrOk(cs)
    ensures ScanStr(t, pos, acc) == None
    decreases |cs|
  {
    hide SpellOk, SpellText, SpellMeans, ScanStr;
    var x, tail := cs[0], StrText(cs[1..]) + rest;
    assert t[pos..] == SpellText(x) + tail;
    if SpellOk(x) {
      SpellRead(t, pos, acc, x, tail);
      RestBad(cs);
      ScanControl(t, pos + |SpellText(x)|, cs[1..], acc + SpellMeans(x), rest);
    } else {
      assert forall i | 0 <= i < 1 :: [x][i] == cs[i];
      ControlStops(t, pos, x, acc, tail);
    }
  }

  lemma RestBad(cs: seq<Spelling>)
    requires LooseStr(cs) && !StrOk(cs) && SpellOk(cs[0])
    ensures LooseStr(cs[1..]) && !StrOk(cs[1..])
  {
    hide SpellOk;
    assert forall i | 0 <= i < |cs[1..]| :: cs[1..][i] == cs[i + 1];
    var i :| 0 <= i < |cs| && !SpellOk(cs[i]);
    assert cs[1..][i - 1] == cs[i];
  }

  lemma ControlStops(t: string, pos: nat, x: Spelling, acc: string, tail: string)
    requires pos <= |t| && t[pos..] == SpellText(x) + tail && LooseStr([x]) && !SpellOk(x)
    ensures ScanStr(t, pos, acc) == None
  {
    hide Unescape;
    assert [x][0] == x;
    assert t[pos] == t[pos..][0];
  }

  lemma QuotedFails(t: string, p: nat, cs: seq<Spelling>, rest: string)
    requires LooseStr(cs) && !StrOk(cs) && p < |t| && t[p..] == Quoted(cs) + rest
    ensures t[p] == '"' && ScanStr(t, p + 1, "") == None
  {
    hide StrText, ScanStr, StrOk, LooseStr;
    QuoteThen(t, p, cs, rest);
    ScanControl(t, p + 1, cs, "", "\"" + rest);
  }

  /** A string with a control character, where a value or a key is expected. */
  lemma StringFails(A: Arith, t: string, pos: nat, brk: string, vals: seq<JVal>, cs: seq<Spelling>, more: seq<string>,
                    ws: seq<string>)
    requires LooseStr(cs) && !StrOk(cs) && From(t, pos, [Quoted(cs)] + more, ws) && brk != []
    ensures Loop(A, t, pos, brk, vals) == None
  {
    hide Loop, Push, SkipWs, Spaced, ScanStr, StrText, From, StrOk, LooseStr;
    var p := NextTokIs(t, pos, Quoted(cs), more, ws);
    var rest := t[p + |Quoted(cs)|..];
    TokThen(t, p, Quoted(cs), rest);
    QuotedFails(t, p, cs, rest);
    LoopRefuses(A, t, pos, p, brk, vals);
  }

  lemma LoopRefuses(A: Arith, t: string, pos: nat, p: nat, brk: string, vals: seq<JVal>)
    requires pos <= |t| && p == SkipWs(t, pos) < |t| && brk != [] && t[p] == '"' && ScanStr(t, p + 1, "") == None
    ensures Loop(A, t, pos, brk, vals) == None
  {
    hide Push, ScanStr, ScanNum, SkipWs;
  }

  lemma {:induction false} ValueFails(A: Arith, t: string, pos: nat, brk: string, vals: seq<JVal>, x: Text,
                                      more: seq<string>, ws: seq<string>)
    requires Exact(A) && LooseOk(x) && !TextOk(x) && From(t, pos, Tokens(x) + more, ws)
    requires brk != [] && Top(brk) != '{' && (Top(brk) == '\0' ==> vals == [])
    ensures Loop(A, t, pos, brk, vals) == None
    decreases x
  {
    hide Loop, Push, SkipWs, Spaced, Exact, From, StrOk, LooseStr;
    if x.TArr? {
      var body := ItemTokens(x.items) + ["]"] + more;
      assert Tokens(x) + more == ["["] + body;
      var p := NextTokIs(t, pos, "[", body, ws);
      LoopOpen(A, t, pos, p, brk, vals, '[');
      ItemsFail(A, t, p + 1, brk, vals, [], x.items, more, ws[1..]);
    } else if x.TDict? {
      var body := PairTokens(x.entries) + ["}"] + more;
      assert Tokens(x) + more == ["{"] + body;
      var p := NextTokIs(t, pos, "{", body, ws);
      LoopOpen(A, t, pos, p, brk, vals, '{');
      EntriesFail(A, t, p + 1, brk, vals, [], x.entries, more, ws[1..]);
    } else {
      StringFails(A, t, pos, brk, vals, x.cs, more, ws);
    }
  }

  lemma {:induction false} ItemsFail(A: Arith, t: string, pos: nat, brk: string, vals: seq<JVal>, done: seq<JVal>,
                                     items: seq<Text>, more: seq<string>, ws: seq<string>)
    requires Exact(A) && LooseItems(items) && !ItemsOk(items) && brk != []
    requires From(t, pos, ItemTokens(items) + ["]"] + more, ws)
    ensures Loop(A, t, pos, brk + ['['], vals + [JArr(done)]) == None
    decreases items
  {
    hide Loop, Push, SkipWs, Spaced, Exact, From, ItemTokens, MoreItems, Tokens, Means, LooseOk, TextOk;
    var x, rest := items[0], items[1..];
    if TextOk(x) {
      if |items| > 1 { NextLoose(items); }
      var p, ws' := ItemParses(A, t, pos, brk, vals, done, items, more, ws);
      ItemsFail(A, t, p, brk, vals, done + [Means(A, x)], rest, more, ws');
    } else {
      ItemFirst(items, more);
      ValueFails(A, t, pos, brk + ['['], vals + [JArr(done)], x, MoreItems(rest) + ["]"] + more, ws);
    }
  }

  lemma NextLoose(items: seq<Text>)
    requires LooseItems(items) && |items| > 1
    ensures Numbered(items[1])
  {
    hide NumOk;
    var rest := items[1..];
    assert LooseItems(rest) && rest[0] == items[1];
    assert LooseOk(rest[0]);
  }

  lemma {:induction false} EntriesFail(A: Arith, t: string, pos: nat, brk: string, vals: seq<JVal>, done: seq<Entry>,
                                       ps: seq<Pair>, more: seq<string>, ws: seq<string>)
    requires Exact(A) && LoosePairs(ps) && !PairsOk(ps) && brk != []
    requires From(t, pos, PairTokens(ps) + ["}"] + more, ws)
    ensures Loop(A, t, pos, brk + ['{'], vals + [JDict(done)]) == None
    decreases ps
  {
    hide Loop, Push, SkipWs, Spaced, Exact, From, PairTokens, MorePairs, Tokens, NextItem, Quoted, StrOk, LooseStr,
        Means,
        LooseOk, TextOk, SetKey, StrMeans;
    var e, rest := ps[0], ps[1..];
    assert ps[0] decreases to ps[0].value;
    var inner, after := vals + [JDict(done)], Tokens(e.value) + (MorePairs(rest) + ["}"] + more);
    PairFirst(ps, more);
    if !StrOk(e.key) {
      assert [Quoted(e.key), ":"] + after == [Quoted(e.key)] + ([":"] + after);
      StringFails(A, t, pos, brk + ['{'], inner, e.key, [":"] + after, ws);
    } else if !TextOk(e.value) {
      var next := KeyParses(A, t, pos, brk, inner, e.key, after, ws);
      ValueFails(A, t, next, brk + [':'], inner + [JStr(StrMeans(e.key))], e.value, MorePairs(rest) + ["}"] + more,
          ws[2..]);
    } else {
      var p, ws' := EntryParses(A, t, pos, brk, vals, done, ps, more, ws);
      EntriesFail(A, t, p, brk, vals, SetKey(done, StrMeans(e.key), Means(A, e.value)), rest, more, ws');
    }
  }

  /* ---- values ---- */

  lemma {:induction false} SpelledLoose(s: string)
    ensures LooseStr(Spelled(s))
    decreases |s|
  {
    if s != "" {
      SpelledLoose(s[1..]);
      var cs := Spelled(s);
      assert forall i | 0 < i < |cs| :: cs[i] == cs[1..][i - 1];
    }
  }

  lemma {:induction false} WritableText(v: JVal)
    requires Writable(v)
    ensures NoReals(v) && LooseOk(TextOf(v)) && (TextOk(TextOf(v)) <==> Good(v))
    decreases v
  {
    hide StrOk, LooseStr, GoodStr;
    match v
    case JInt(n) => DecIs(if n < 0 then 0 - n else n);
    case JStr(s) =>
      SpelledIs(s);
      SpelledLoose(s);
    case JArr(items) => WritableTexts(items);
    case JDict(entries) => WritablePairs(entries);
    case _ =>
  }

  lemma {:induction false} WritableTexts(items: seq<JVal>)
    requires WritableItems(items)
    ensures NoRealItems(items) && LooseItems(TextsOf(items)) && (ItemsOk(TextsOf(items)) <==> GoodItems(items))
    decreases items
  {
    if items != [] {
      WritableText(items[0]);
      WritableTexts(items[1..]);
      assert TextsOf(items)[1..] == TextsOf(items[1..]);
    }
  }

  lemma {:induction false} WritablePairs(es: seq<Entry>)
    requires WritableEntries(es)
    ensures NoRealEntries(es) && LoosePairs(PairsOf(es)) && (PairsOk(PairsOf(es)) <==> GoodEntries(es))
    decreases es
  {
    hide StrOk, LooseStr, GoodStr;
    if es != [] {
      assert es[0] decreases to es[0].value;
      SpelledIs(es[0].key);
      SpelledLoose(es[0].key);
      WritableText(es[0].value);
      WritablePairs(es[1..]);
      assert PairsOf(es)[1..] == PairsOf(es[1..]);
    }
  }

  /** Exactly the values without control characters come back. */
  lemma RoundTripExactly(A: Arith, v: JVal)
    requires Exact(A) && Writable(v)
    ensures Decode(A, Encode(A, v)) == Some(v) <==> Good(v)
    ensures !Good(v) ==> Decode(A, Encode(A, v)) == None
  {
    hide Exact, Toks, Tokens, Writable, Good, Loop, TextOf, LooseOk, TextOk;
    if Good(v) {
      RoundTrip(A, v);
    } else {
      var ws := seq(|Toks(A, v)| + 1, _ => "");
      WritableText(v);
      WritesText(A, v);
      JoinIsSpaced(Toks(A, v), ws);
      var t := Encode(A, v);
      assert Toks(A, v) + [] == Toks(A, v) && t[0..] == t;
      ValueFails(A, t, 0, "\0", [], TextOf(v), [], ws);
    }
  }

  /** For example, a string that is a line break does not come back. */
  lemma LineBreakRefused(A: Arith)
    requires Exact(A)
    ensures Writable(JStr("\n")) && Decode(A, Encode(A, JStr("\n"))) == None
  {
    assert "\n"[0] == '\n';
    RoundTripExactly(A, JStr("\n"));
  }

  /* ---- texts that are no JSON ---- */

  /** Behind a value in an array (`rev` is `]`) or a dictionary (`}`): a comma with the closing
      bracket behind it, another bracket, or nothing. */
  predicate BadEnd(rev: string, tail: seq<string>) {
    tail == [] || (|tail| > 1 && tail[0] == "," && tail[1] == rev) || (tail[0] in {"]", "}"} && tail[0] != rev)
  }

  lemma BadNext(t: string, last: nat, rev: string, tail: seq<string>, ws: seq<string>)
    requires last < |t| && From(t, last + 1, tail, ws) && rev in {"]", "}"} && BadEnd(rev, tail)
    ensures NextItem(t, last, rev[0]) in {Refuse, End} && (tail != [] ==> NextItem(t, last, rev[0]) == Refuse)
  {
    hide SkipWs, Spaced;
    if tail == [] {
      NoTok(t, last + 1, ws);
    } else {
      var p := NextTok(t, last + 1, tail, ws);
      if tail[0] == "," { var q := NextTok(t, p + 1, tail[1..], ws[1..]); }
    }
  }

  lemma PushFails(A: Arith, t: string, last: nat, brk: string, vals: seq<JVal>, tail: seq<string>, ws: seq<string>)
    requires last < |t| && |brk| == 2 && Top(brk) in {'[', ':'} && From(t, last + 1, tail, ws)
    requires BadEnd(if Top(brk) == '[' then "]" else "}", tail)
    ensures Push(A, t, last, brk, vals) == None
  {
    hide Loop, NextItem, From;
    BadNext(t, last, if Top(brk) == '[' then "]" else "}", tail, ws);
  }

  /** An array of one value that does not end as it should. */
  lemma ArrayRefused(A: Arith, x: Text, tail: seq<string>, ws: seq<string>)
    requires Exact(A) && TextOk(x) && BadEnd("]", tail) && |ws| == |Tokens(x)| + |tail| + 2 && WsOnly(ws)
    ensures Decode(A, Spaced(["["] + (Tokens(x) + tail), ws)) == None
  {
    hide Exact, Spaced, Means, Tokens, Loop, Push, TextOk, SkipWs;
    var body := Tokens(x) + tail;
    var t := Spaced(["["] + body, ws);
    assert t[0..] == t;
    var p := NextTokIs(t, 0, "[", body, ws);
    LoopOpen(A, t, 0, p, "\0", [], '[');
    var last := ValueParses(A, t, p + 1, "\0" + ['['], [] + [JArr([])], x, tail, ws[1..]);
    PushFails(A, t, last, "\0" + ['['], [] + [JArr([])] + [Means(A, x)], tail, ws[1..][|Tokens(x)|..]);
  }

  /** A dictionary of one entry that does not end as it should. */
  lemma DictionaryRefused(A: Arith, k: seq<Spelling>, x: Text, tail: seq<string>, ws: seq<string>)
    requires Exact(A) && StrOk(k) && TextOk(x) && BadEnd("}", tail) && |ws| == |Tokens(x)| + |tail| + 4 && WsOnly(ws)
    ensures Decode(A, Spaced(["{"] + ([Quoted(k), ":"] + (Tokens(x) + tail)), ws)) == None
  {
    hide Exact, Spaced, Means, Tokens, Loop, Push, TextOk, SkipWs, StrOk, StrMeans, Quoted;
    var body := Tokens(x) + tail;
    var t := Spaced(["{"] + ([Quoted(k), ":"] + body), ws);
    assert t[0..] == t;
    var p := NextTokIs(t, 0, "{", [Quoted(k), ":"] + body, ws);
    LoopOpen(A, t, 0, p, "\0", [], '{');
    var vals := [] + [JDict([])];
    var next := KeyParses(A, t, p + 1, "\0", vals, k, body, ws[1..]);
    var last := ValueParses(A, t, next, "\0" + [':'], vals + [JStr(StrMeans(k))], x, tail, ws[1..][2..]);
    PushFails(A, t, last, "\0" + [':'], vals + [JStr(StrMeans(k))] + [Means(A, x)], tail,
        ws[1..][2..][|Tokens(x)|..]);
  }

  /** A key with anything but a colon behind it. */
  lemma KeyRefused(A: Arith, k: seq<Spelling>, tok: string, more: seq<string>, ws: seq<string>)
    requires StrOk(k) && GoodTok(tok) && tok[0] != ':' && |ws| == |more| + 4 && WsOnly(ws)
    ensures Decode(A, Spaced(["{"] + ([Quoted(k)] + ([tok] + more)), ws)) == None
  {
    hide Spaced, Loop, Push, SkipWs, StrOk, StrMeans, Quoted, From, GoodTok, WsOnly;
    var body := [Quoted(k)] + ([tok] + more);
    var t := Spaced(["{"] + body, ws);
    FromStart(t, ["{"] + body, ws);
    TokOpen();
    var p := NextTokIs(t, 0, "{", body, ws);
    LoopOpen(A, t, 0, p, "\0", [], '{');
    KeyAlone(A, t, p + 1, "\0" + ['{'], [] + [JDict([])], k, tok, more, ws[1..]);
  }

  lemma TokOpen()
    ensures GoodTok("{")
  {
  }

  lemma KeyAlone(A: Arith, t: string, pos: nat, brk: string, vals: seq<JVal>, k: seq<Spelling>, tok: string,
                 more: seq<string>, ws: seq<string>)
    requires StrOk(k) && GoodTok(tok) && tok[0] != ':' && From(t, pos, [Quoted(k)] + ([tok] + more), ws)
    requires brk != [] && Top(brk) == '{'
    ensures Loop(A, t, pos, brk, vals) == None
  {
    hide Spaced, Loop, Push, SkipWs, StrOk, StrMeans, StrText, ScanStr, From;
    var p := NextTokIs(t, pos, Quoted(k), [tok] + more, ws);
    var after := t[p + |Quoted(k)|..];
    TokThen(t, p, Quoted(k), after);
    QuotedScan(t, p, k, after);
    var q := NextTokIs(t, p + |Quoted(k)|, tok, more, ws[1..]);
    NoColon(A, t, pos, p, brk, vals, StrMeans(k), p + |Quoted(k)| - 1, q);
  }

  lemma FromStart(t: string, toks: seq<string>, ws: seq<string>)
    requires |ws| == |toks| + 1 && WsOnly(ws) && t == Spaced(toks, ws)
    ensures From(t, 0, toks, ws)
  {
    assert t[0..] == t;
  }

  lemma NoColon(A: Arith, t: string, pos: nat, p: nat, brk: string, vals: seq<JVal>, k: string, quote: nat, q: nat)
    requires pos <= |t| && p == SkipWs(t, pos) < |t| && t[p] == '"' && ScanStr(t, p + 1, "") == Some(Scanned(k, quote))
    requires brk != [] && Top(brk) == '{' && q == SkipWs(t, quote + 1) && q < |t| && t[q] != ':'
    ensures Loop(A, t, pos, brk, vals) == None
  {
    hide Push, ScanStr, ScanNum, SkipWs;
  }

  /** A text with something behind it. */
  lemma SecondRefused(A: Arith, x: Text, tok: string, more: seq<string>, ws: seq<string>)
    requires Exact(A) && TextOk(x) && tok in {",", "]", "}"} && |ws| == |Tokens(x)| + |more| + 2 && WsOnly(ws)
    ensures Decode(A, Spaced(Tokens(x) + ([tok] + more), ws)) == None
  {
    hide Exact, Spaced, Means, Tokens, Loop, Push, TextOk, SkipWs, From;
    var t := Spaced(Tokens(x) + ([tok] + more), ws);
    FromStart(t, Tokens(x) + ([tok] + more), ws);
    var last := ValueParses(A, t, 0, "\0", [], x, [tok] + more, ws);
    var q := NextTokIs(t, last + 1, tok, more, ws[|Tokens(x)|..]);
    NothingBehind(A, t, last, q, [] + [Means(A, x)]);
  }

  lemma NothingBehind(A: Arith, t: string, last: nat, q: nat, vals: seq<JVal>)
    requires last < |t| && q == SkipWs(t, last + 1) < |t| && vals != []
    ensures Push(A, t, last, "\0", vals) == None
  {
    assert Loop(A, t, last + 1, "\0", vals) == None;
  }

  /** A backslash with a character behind it that is no escape. */
  lemma EscapeRefused(A: Arith, cs: seq<Spelling>, l: char, rest: string)
    requires StrOk(cs) && l !in ESCAPES && l != 'u'
    ensures Decode(A, "\"" + StrText(cs) + ['\\', l] + rest) == None
  {
    hide Loop, ScanStr, StrOk, StrText;
    var t := "\"" + StrText(cs) + ['\\', l] + rest;
    assert t[0] == '"' && t[1..] == StrText(cs) + (['\\', l] + rest);
    assert SkipWs(t, 0) == 0;
    ScanUpTo(t, 1, cs, "", ['\\', l] + rest);
    var p := 1 + |StrText(cs)|;
    assert t[p..] == t[1..][|StrText(cs)|..] == ['\\', l] + rest;
    BadEscape(t, p, "" + StrMeans(cs), l);
    LoopRefuses(A, t, 0, 0, "\0", []);
  }

  lemma {:induction false} ScanUpTo(t: string, pos: nat, cs: seq<Spelling>, acc: string, rest: string)
    requires pos <= |t| && t[pos..] == StrText(cs) + rest && StrOk(cs)
    ensures pos + |StrText(cs)| <= |t|
    ensures ScanStr(t, pos, acc) == ScanStr(t, pos + |StrText(cs)|, acc + StrMeans(cs))
    decreases |cs|
  {
    hide SpellText, SpellMeans, SpellOk, ScanStr, StrText, StrMeans, StrOk;
    if cs == [] {
      NoneSpelled(acc);
    } else {
      var first, tail := SpellText(cs[0]), StrText(cs[1..]) + rest;
      SpelledSplit(cs);
      assert t[pos..] == first + tail;
      SpellRead(t, pos, acc, cs[0], tail);
      ScanUpTo(t, pos + |first|, cs[1..], acc + SpellMeans(cs[0]), rest);
      assert (acc + SpellMeans(cs[0])) + StrMeans(cs[1..]) == acc + StrMeans(cs);
    }
  }

  lemma NoneSpelled(acc: string)
    ensures StrText([]) == "" && StrMeans([]) == "" && acc + "" == acc
  {
  }

  lemma BadEscape(t: string, p: nat, acc: string, l: char)
    requires p + 1 < |t| && t[p] == '\\' && t[p + 1] == l && l !in ESCAPES && l != 'u'
    ensures ScanStr(t, p, acc) == None
  {
  }
}
