/** The decoder's loop and the encoder as they run, proved against Json.dfy. */
module JsonCode {
  import opened Json
  import opened JsonProof

  /* ---- decoding ---- */

  method SkipSpace(t: string, from: nat) returns (pos: nat)
    ensures pos == SkipWs(t, from)
  {
    pos := from;
    while pos < |t|
      invariant from <= pos && SkipWs(t, pos) == SkipWs(t, from)
      decreases |t| - pos
    {
      if t[pos] != ' ' && t[pos] != '\t' && t[pos] != '\n' && t[pos] != '\r' { break; }
      pos := pos + 1;
    }
  }

  /** The part of json_parse that reads a string; `from` is behind the opening quote. */
  method ReadString(t: string, from: nat) returns (r: Option<Scanned>)
    requires from <= |t|
    ensures r == ScanStr(t, from, "")
  {
    var pos, str := from, "";
    while pos < |t| && t[pos] != '"'
      invariant from <= pos && ScanStr(t, pos, str) == ScanStr(t, from, "")
      decreases |t| - pos
    {
      if t[pos] as int <= 0x1f { return None; }
      if t[pos] == '\\' {
        var e := Unescape(t, pos + 1);
        if e.None? { return None; }
        str := str + e.value.text;
        pos := pos + e.value.size;
      } else {
        str := str + [t[pos]];
      }
      pos := pos + 1;
    }
    if pos >= |t| { return None; }
    r := Some(Scanned(str, pos));
  }

  /** Reads digits, each step rounded. */
  method ReadDigits(A: Arith, t: string, from: nat, val0: int) returns (pos: nat, val: int)
    requires from <= |t|
    ensures pos == SkipDigits(t, from) && val == Digits(A, t[from..pos], val0)
  {
    pos, val := from, val0;
    while pos < |t| && IsDigit(t[pos])
      invariant from <= pos <= |t| && SkipDigits(t, pos) == SkipDigits(t, from) && val == Digits(A, t[from..pos], val0)
    {
      assert t[from..pos + 1] == t[from..pos] + [t[pos]];
      DigitsConcat(A, t[from..pos], [t[pos]], val0);
      assert [t[pos]][1..] == "";
      val := A.rnd(A.rnd(val * 10) + Digit(t[pos]));
      pos := pos + 1;
    }
  }

  /** The part of json_parse that reads a number. */
  method ReadNumber(A: Arith, t: string, from: nat) returns (r: Option<Number>)
    requires from < |t| && (IsDigit(t[from]) || t[from] == '-')
    ensures r == ScanNum(A, t, from)
  {
    hide SkipDigits, Digits, Plain, Digit;
    var pos, neg := from, t[from] == '-';
    if neg {
      pos := pos + 1;
      if pos >= |t| { return Some(Number(JInt(0), pos)); }
      if !IsDigit(t[pos]) { return None; }
    }
    var num := Digit(t[pos]);
    pos := pos + 1;
    if pos >= |t| { return Some(Plain(A, neg, num, t[from..pos], pos)); }
    var val := num;
    ghost var first := pos;
    if num != 0 { pos, val := ReadDigits(A, t, pos, num); } else { assert t[first..pos] == ""; NoDigits(A, num); }
    var plain, end := true, pos;
    if At(t, pos) == '.' {
      plain := false;
      var ignored;
      pos, ignored := ReadDigits(A, t, pos + 1, 0);
    }
    if At(t, pos) == 'E' || At(t, pos) == 'e' {
      plain := false;
      pos := pos + 1;
      if pos >= |t| { return Some(Number(A.frac(t[from..pos]), pos)); }
      if t[pos] == '-' || t[pos] == '+' { pos := pos + 1; }
      else if !IsDigit(t[pos]) { return None; }
      var ignored;
      pos, ignored := ReadDigits(A, t, pos, 0);
    }
    r := Some(if plain then Plain(A, neg, val, t[from..pos], pos) else Number(A.frac(t[from..pos]), pos));
  }

  /** Behind an item of an array or dictionary: json_parse's cursor steps. */
  method StepOver(t: string, last: nat, revchr: char) returns (c: Cursor)
    requires last < |t| && revchr != ','
    ensures c == NextItem(t, last, revchr)
  {
    hide SkipWs;
    var pos := SkipSpace(t, last + 1);
    if pos >= |t| { return End; }
    if t[pos] != ',' && t[pos] != revchr { return Refuse; }
    if t[pos] == ',' {
      pos := SkipSpace(t, pos + 1);
      if pos >= |t| { return End; }
      if t[pos] == revchr { return Refuse; }
      if t[pos] == ',' { pos := pos - 1; }
    }
    if t[pos] != ',' { pos := pos - 1; }
    c := Go(pos + 1);
  }

  /** The chain of cases of json_parse, at a character that is not whitespace. `push` tells
      that a value has been completed, its last character at `pos`. */
  method ReadItem(A: Arith, t: string, at: nat, from: nat, stack0: string, vals0: seq<JVal>)
    returns (ok: bool, push: bool, pos: nat, stack: string, vals: seq<JVal>)
    requires at <= |t| && from == SkipWs(t, at) < |t| && stack0 != []
    ensures !ok ==> Loop(A, t, at, stack0, vals0) == None
    ensures ok ==> pos < |t| && at <= pos && stack != [] && Loop(A, t, at, stack0, vals0) ==
                     if push then Push(A, t, pos, stack, vals) else Loop(A, t, pos + 1, stack, vals)
  {
    hide SkipWs, ScanStr, ScanNum, Push;
    ok, push, pos, stack, vals := true, false, from, stack0, vals0;
    var c, top := t[pos], stack[|stack| - 1];
    if top == '{' && c != '"' && c != '}' { ok := false; return; }
    if top == '\0' && |vals| > 0 { ok := false; return; }
    if c == '{' {
      stack, vals := stack + ['{'], vals + [JDict([])];
    } else if c == '}' {
      if (top != '{' && top != ':') || |stack| == 1 { ok := false; return; }
      stack := stack[..|stack| - 1];
      push := true;
    } else if c == '[' {
      stack, vals := stack + ['['], vals + [JArr([])];
    } else if c == ']' {
      if top != '[' || |stack| == 1 { ok := false; return; }
      stack := stack[..|stack| - 1];
      push := true;
    } else if c == '"' {
      var s := ReadString(t, pos + 1);
      if s.None? { ok := false; return; }
      vals := vals + [JStr(s.value.text)];
      pos := s.value.quote;
      if top == '{' {
        stack := stack[..|stack| - 1] + [':'];
        pos := SkipSpace(t, pos + 1);
        if At(t, pos) != ':' { ok := false; return; }
      } else {
        push := true;
      }
    } else if IsDigit(c) || c == '-' {
      var n := ReadNumber(A, t, pos);
      if n.None? { ok := false; return; }
      vals := vals + [n.value.v];
      pos := n.value.next - 1;
      push := true;
    } else if Word(t, pos, "null") {
      vals, pos, push := vals + [JNull], pos + 3, true;
    } else if Word(t, pos, "true") {
      vals, pos, push := vals + [JBool(true)], pos + 3, true;
    } else if Word(t, pos, "false") {
      vals, pos, push := vals + [JBool(false)], pos + 4, true;
    } else {
      ok := false;
    }
  }

  /** A completed value goes where the innermost open bracket wants it. */
  method StoreItem(A: Arith, t: string, last: nat, stack0: string, vals0: seq<JVal>)
    returns (next: Cursor, stack: string, vals: seq<JVal>)
    requires last < |t| && stack0 != []
    ensures next.Refuse? ==> Push(A, t, last, stack0, vals0) == None
    ensures next.End? ==> Push(A, t, last, stack0, vals0) == Finish(stack, vals)
    ensures next.Go? ==>
            last < next.pos <= |t| && stack != []
            && Push(A, t, last, stack0, vals0) == Loop(A, t, next.pos, stack, vals)
  {
    hide Loop, NextItem, Attach;
    next, stack, vals := Go(last + 1), stack0, vals0;
    var top := stack[|stack| - 1];
    if top == '[' || top == ':' {
      next := StepOver(t, last, if top == '[' then ']' else '}');
      if !next.Go? { return; }
    }
    var all := Attach(top, vals);
    if all.None? { return Refuse, stack, vals; }
    vals := all.value;
    if top == ':' { stack := stack[..|stack| - 1] + ['{']; }
  }

  lemma DecodeIs(A: Arith, t: string)
    ensures Loop(A, t, 0, "\0", []) == Decode(A, t)
  {
  }

  /** json_parse */
  method JsonParse(A: Arith, t: string) returns (r: Option<JVal>)
    ensures r == Decode(A, t)
  {
    hide SkipWs, ScanStr, ScanNum, Push, Decode;
    assert Loop(A, t, 0, "\0", []) == Decode(A, t) by { DecodeIs(A, t); }
    var pos, stack, vals: seq<JVal> := 0, "\0", [];
    while true
      invariant pos <= |t| && stack != [] && Loop(A, t, pos, stack, vals) == Decode(A, t)
      decreases |t| - pos
    {
      var at := pos;
      pos := SkipSpace(t, pos);
      if pos >= |t| { break; }
      var ok, push;
      ok, push, pos, stack, vals := ReadItem(A, t, at, pos, stack, vals);
      if !ok { return None; }
      if push {
        var next;
        next, stack, vals := StoreItem(A, t, pos, stack, vals);
        if next.End? { break; }
        if next.Refuse? { return None; }
        pos := next.pos - 1;
      }
      pos := pos + 1;
    }
    r := if |vals| > 0 && |stack| == 1 then Some(vals[|vals| - 1]) else None;
  }

  /* ---- encoding ---- */

  /** sgs_MemBuf */
  class MemBuf {
    var data: string

    constructor ()
      ensures data == ""
    {
      data := "";
    }

    method App(s: string)
      modifies this
      ensures data == old(data) + s
    {
      data := data + s;
    }
  }

  lemma {:induction false} JoinConcat(a: seq<string>, b: seq<string>)
    ensures Join(a + b) == Join(a) + Join(b)
    decreases |a|
  {
    if a == [] { assert a + b == b; }
    else {
      assert (a + b)[1..] == a[1..] + b;
      JoinConcat(a[1..], b);
    }
  }

  lemma JoinOne(s: string)
    ensures Join([s]) == s
  {
    assert [s][1..] == [] && s + "" == s;
  }

  /** One more piece has been written. */
  lemma Written(all: string, data: string, sep: string, piece: string, rest: string)
    requires all == data + (sep + (piece + rest))
    ensures all == ((data + sep) + piece) + rest
  {
  }

  lemma {:induction false} EscLast(s: string, c: char)
    ensures Esc(s + [c]) == Esc(s) + (if c == '"' || c == '\\' then ['\\', c] else [c])
    decreases |s|
  {
    if s == "" {
      assert s + [c] == [c] && [c][1..] == "";
    } else {
      assert (s + [c])[1..] == s[1..] + [c];
      EscLast(s[1..], c);
    }
  }

  lemma EscNone()
    ensures Esc("") == ""
  {
  }

  /** The string case of encode_var: stretches without special characters are copied whole. */
  method EncodeString(s: string, buf: MemBuf)
    modifies buf
    ensures buf.data == old(buf.data) + Quote(s)
  {
    hide Esc;
    ghost var start := buf.data + "\"";
    buf.App("\"");
    var frm, str := 0, 0;
    EscNone();
    while str < |s|
      invariant 0 <= frm <= str <= |s| && buf.data + s[frm..str] == start + Esc(s[..str])
    {
      assert s[..str + 1] == s[..str] + [s[str]];
      EscLast(s[..str], s[str]);
      ghost var before := start + Esc(s[..str]);
      if s[str] == '"' || s[str] == '\\' {
        if str != frm { buf.App(s[frm..str]); } else { assert s[frm..str] == ""; }
        assert buf.data == before;
        buf.App(['\\', s[str]]);
        frm := str + 1;
        assert s[frm..str + 1] == "" && before + ['\\', s[str]] == start + (Esc(s[..str]) + ['\\', s[str]]);
      } else {
        assert s[frm..str + 1] == s[frm..str] + [s[str]];
        assert buf.data + (s[frm..str] + [s[str]]) == (buf.data + s[frm..str]) + [s[str]] == start
               + (Esc(s[..str]) + [s[str]]);
      }
      str := str + 1;
    }
    assert s[..str] == s;
    if str != frm { buf.App(s[frm..str]); } else { assert s[frm..str] == ""; }
    assert buf.data == start + Esc(s);
    buf.App("\"");
    assert start + Esc(s) + "\"" == old(buf.data) + ("\"" + Esc(s) + "\"");
  }

  /** encode_var */
  method EncodeVar(A: Arith, v: JVal, buf: MemBuf)
    modifies buf
    ensures buf.data == old(buf.data) + Encode(A, v)
    decreases v, 1
  {
    if |Toks(A, v)| == 1 { JoinOne(Toks(A, v)[0]); assert Toks(A, v) == [Toks(A, v)[0]]; }
    match v
    case JNull => buf.App("null");
    case JBool(b) => buf.App(if b then "true" else "false");
    case JInt(n) => buf.App(Int(n));
    case JReal(r) => buf.App(A.show(r));
    case JStr(s) => EncodeString(s, buf);
    case JArr(items) => EncodeItems(A, v, buf);
    case JDict(entries) => EncodeEntries(A, v, buf);
  }

  /** The tokens behind an item or an entry: a comma and more of them, or nothing. */
  function MoreItemToks(A: Arith, items: seq<JVal>): seq<string> {
    if items == [] then [] else [","] + ItemToks(A, items)
  }

  function MoreEntryToks(A: Arith, es: seq<Entry>): seq<string> {
    if es == [] then [] else [","] + EntryToks(A, es)
  }

  lemma ItemToksSplit(A: Arith, items: seq<JVal>)
    requires items != []
    ensures ItemToks(A, items) == Toks(A, items[0]) + MoreItemToks(A, items[1..])
  {
    if |items| == 1 { assert items[1..] == []; }
  }

  lemma EntryToksSplit(A: Arith, es: seq<Entry>)
    requires es != []
    ensures EntryToks(A, es) == [Quote(es[0].key), ":"] + Toks(A, es[0].value) + MoreEntryToks(A, es[1..])
  {
    if |es| == 1 { assert es[1..] == []; }
  }

  method EncodeItems(A: Arith, v: JVal, buf: MemBuf)
    requires v.JArr?
    modifies buf
    ensures buf.data == old(buf.data) + Encode(A, v)
    decreases v, 0
  {
    hide Join, Toks, ItemToks, MoreItemToks, Encode;
    var items := v.items;
    buf.App("[");
    ghost var all := buf.data + Join(ItemToks(A, items));
    var first, i := true, 0;
    assert items[0..] == items;
    while i < |items|
      invariant i <= |items| && (first <==> i == 0)
      invariant all == buf.data + Join(if first then ItemToks(A, items) else MoreItemToks(A, items[i..]))
    {
      ghost var rest, data := items[i..], buf.data;
      assert rest[0] == items[i] && rest[1..] == items[i + 1..];
      ItemsJoin(A, rest);
      ghost var sep := if first then "" else ",";
      if first {
        first := false;
        assert "" + Join(ItemToks(A, rest)) == Join(ItemToks(A, rest)) && data + "" == data;
      } else {
        buf.App(",");
      }
      Written(all, data, sep, Encode(A, items[i]), Join(MoreItemToks(A, items[i + 1..])));
      EncodeVar(A, items[i], buf);
      i := i + 1;
    }
    EmptyJoin(A);
    assert items[i..] == [] && buf.data + "" == buf.data;
    buf.App("]");
    ArrJoin(A, items);
    assert all + "]" == old(buf.data) + ("[" + Join(ItemToks(A, items)) + "]");
  }

  lemma ItemsJoin(A: Arith, rest: seq<JVal>)
    requires rest != []
    ensures Join(ItemToks(A, rest)) == Encode(A, rest[0]) + Join(MoreItemToks(A, rest[1..]))
    ensures Join(MoreItemToks(A, rest)) == "," + Join(ItemToks(A, rest))
  {
    ItemToksSplit(A, rest);
    JoinConcat(Toks(A, rest[0]), MoreItemToks(A, rest[1..]));
    assert ([","] + ItemToks(A, rest))[1..] == ItemToks(A, rest);
  }

  lemma EmptyJoin(A: Arith)
    ensures Join(ItemToks(A, [])) == "" && Join(MoreItemToks(A, [])) == "" && Join(EntryToks(A, [])) == ""
            && Join(MoreEntryToks(A, [])) == ""
  {
  }

  lemma JoinAround(open: string, mid: seq<string>, close: string)
    ensures Join([open] + mid + [close]) == open + Join(mid) + close
  {
    assert ([open] + mid + [close])[1..] == mid + [close];
    JoinConcat(mid, [close]);
    assert Join([close]) == close + "" == close;
  }

  lemma ArrJoin(A: Arith, items: seq<JVal>)
    ensures Encode(A, JArr(items)) == "[" + Join(ItemToks(A, items)) + "]"
  {
    JoinAround("[", ItemToks(A, items), "]");
  }

  lemma DictJoin(A: Arith, es: seq<Entry>)
    ensures Encode(A, JDict(es)) == "{" + Join(EntryToks(A, es)) + "}"
  {
    JoinAround("{", EntryToks(A, es), "}");
  }

  lemma EntriesJoin(A: Arith, rest: seq<Entry>)
    requires rest != []
    ensures Join(EntryToks(A, rest)) == Quote(rest[0].key)
            + (":" + (Encode(A, rest[0].value) + Join(MoreEntryToks(A, rest[1..]))))
    ensures Join(MoreEntryToks(A, rest)) == "," + Join(EntryToks(A, rest))
  {
    hide Quote, EntryToks, Toks, MoreEntryToks, Join;
    EntryToksSplit(A, rest);
    var k, value, more := Quote(rest[0].key), Toks(A, rest[0].value), MoreEntryToks(A, rest[1..]);
    JoinPair(k, ":", value + more);
    assert [k, ":"] + value + more == [k, ":"] + (value + more);
    JoinConcat(value, more);
    MoreJoin(A, rest);
  }

  lemma MoreJoin(A: Arith, rest: seq<Entry>)
    requires rest != []
    ensures Join(MoreEntryToks(A, rest)) == "," + Join(EntryToks(A, rest))
  {
    hide EntryToks, Join;
    JoinHead(",", EntryToks(A, rest));
  }

  lemma JoinHead(s: string, toks: seq<string>)
    ensures Join([s] + toks) == s + Join(toks)
  {
    assert ([s] + toks)[1..] == toks;
  }

  lemma JoinPair(a: string, b: string, toks: seq<string>)
    ensures Join([a, b] + toks) == a + (b + Join(toks))
  {
    assert [a, b] + toks == [a] + ([b] + toks);
    JoinHead(a, [b] + toks);
    JoinHead(b, toks);
  }

  method EncodeEntries(A: Arith, v: JVal, buf: MemBuf)
    requires v.JDict?
    modifies buf
    ensures buf.data == old(buf.data) + Encode(A, v)
    decreases v, 0
  {
    hide Join, Toks, EntryToks, MoreEntryToks, Quote, Encode;
    var es := v.entries;
    buf.App("{");
    ghost var all := buf.data + Join(EntryToks(A, es));
    var first, i := true, 0;
    assert es[0..] == es;
    while i < |es|
      invariant i <= |es| && (first <==> i == 0)
      invariant all == buf.data + Join(if first then EntryToks(A, es) else MoreEntryToks(A, es[i..]))
    {
      ghost var rest, data := es[i..], buf.data;
      assert rest[0] == es[i] && rest[1..] == es[i + 1..];
      EntriesJoin(A, rest);
      ghost var sep, tail := (if first then "" else ","), Encode(A, es[i].value) + Join(MoreEntryToks(A, es[i + 1..]));
      if first {
        first := false;
        assert "" + Join(EntryToks(A, rest)) == Join(EntryToks(A, rest)) && data + "" == data;
      } else {
        buf.App(",");
      }
      Written(all, data, sep, Quote(es[i].key), ":" + tail);
      EncodeString(es[i].key, buf);
      Written(all, buf.data, ":", Encode(A, es[i].value), Join(MoreEntryToks(A, es[i + 1..])));
      buf.App(":");
      assert es[i] decreases to es[i].value;
      EncodeVar(A, es[i].value, buf);
      i := i + 1;
    }
    EmptyJoin(A);
    assert es[i..] == [] && buf.data + "" == buf.data;
    buf.App("}");
    DictJoin(A, es);
    assert all + "}" == old(buf.data) + ("{" + Join(EntryToks(A, es)) + "}");
  }
}
