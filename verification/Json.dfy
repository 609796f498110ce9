/** What the JSON decoder and encoder compute.  The decoder is one loop over a cursor, a
    stack of open brackets and a stack of values; here it is the same loop as recursion. */
module Json {

  /** Dictionaries keep the order in which keys were added. */
  datatype JVal =
    | JNull | JBool(b: bool) | JInt(n: int) | JReal(r: real) | JStr(s: string)
    | JArr(items: seq<JVal>) | JDict(entries: seq<Entry>)

  datatype Entry = Entry(key: string, value: JVal)

  datatype Option<T> = None | Some(value: T)

  /** Rounding to the floating-point format in which numbers are read, reading numbers that
      are not plain integers, and printing real numbers. */
  datatype Arith = Arith(rnd: int -> int, frac: string -> JVal, show: real -> string)

  const TWO_53: int := 0x20_0000_0000_0000
  const TWO_63: int := 0x8000_0000_0000_0000

  predicate IsWs(c: char) { c == ' ' || c == '\t' || c == '\n' || c == '\r' }
  predicate IsDigit(c: char) { '0' <= c <= '9' }
  function Digit(c: char): int { c as int - '0' as int }

  /** The text is followed by a NUL. */
  function At(t: string, pos: int): char {
    if 0 <= pos < |t| then t[pos] else '\0'
  }

  /** skipws */
  function SkipWs(t: string, pos: nat): (p: nat)
    ensures p >= pos && (pos <= |t| ==> p <= |t|)
    ensures p < |t| ==> !IsWs(t[p])
    decreases |t| - pos
  {
    if pos < |t| && IsWs(t[pos]) then SkipWs(t, pos + 1) else pos
  }

  /* ---- strings ---- */

  predicate IsHex(c: char) { IsDigit(c) || 'a' <= c <= 'f' || 'A' <= c <= 'F' }

  function Hex(c: char): (h: int)
    requires IsHex(c)
    ensures 0 <= h < 16
  {
    if IsDigit(c) then c as int - '0' as int
    else if 'a' <= c then c as int - 'a' as int + 10
    else c as int - 'A' as int + 10
  }

  /** A 16-bit code as UTF-8. */
  function Utf8(u: int): string
    requires 0 <= u < 0x10000
  {
    if u <= 0x7f then [u as char]
    else if u <= 0x7ff then [(0xC0 + u / 64) as char, (0x80 + u % 64) as char]
    else [(0xE0 + u / 4096) as char, (0x80 + u / 64 % 64) as char, (0x80 + u % 64) as char]
  }

  /** What stands behind a backslash: the characters it means, and how many it takes. */
  datatype Escape = Escape(text: string, size: nat)

  function Unescape(t: string, pos: nat): Option<Escape> {
    var c := At(t, pos);
    if c == '"' || c == '\\' || c == '/' then Some(Escape([c], 1))
    else if c == 'b' then Some(Escape([8 as char], 1))
    else if c == 'f' then Some(Escape([12 as char], 1))
    else if c == 'n' then Some(Escape(['\n'], 1))
    else if c == 'r' then Some(Escape(['\r'], 1))
    else if c == 't' then Some(Escape(['\t'], 1))
    else if c == 'u' && IsHex(At(t, pos + 1)) && IsHex(At(t, pos + 2)) && IsHex(At(t, pos + 3))
        && IsHex(At(t, pos + 4)) then
      Some(Escape(Utf8(((Hex(At(t, pos + 1)) * 16 + Hex(At(t, pos + 2))) * 16 + Hex(At(t, pos + 3))) * 16
          + Hex(At(t, pos + 4))), 5))
    else None
  }

  datatype Scanned = Scanned(text: string, quote: nat)

  /** The characters up to the closing quote; control characters are refused. */
  function ScanStr(t: string, pos: nat, acc: string): (r: Option<Scanned>)
    ensures r.Some? ==> pos <= r.value.quote < |t|
    decreases |t| - pos
  {
    if pos >= |t| then None
    else if t[pos] == '"' then Some(Scanned(acc, pos))
    else if t[pos] as int <= 0x1f then None
    else if t[pos] == '\\' then
      var e := Unescape(t, pos + 1);
      if e.None? then None else ScanStr(t, pos + 1 + e.value.size, acc + e.value.text)
    else ScanStr(t, pos + 1, acc + [t[pos]])
  }

  /* ---- numbers ---- */

  function SkipDigits(t: string, pos: nat): (p: nat)
    ensures p >= pos && (pos <= |t| ==> p <= |t|)
    decreases |t| - pos
  {
    if pos < |t| && IsDigit(t[pos]) then SkipDigits(t, pos + 1) else pos
  }

  /** The value of digits, each step rounded. */
  function Digits(A: Arith, ds: string, val: int): int
    decreases |ds|
  {
    if ds == [] then val else Digits(A, ds[1..], A.rnd(A.rnd(val * 10) + Digit(ds[0])))
  }

  datatype Number = Number(v: JVal, next: nat)

  function Plain(A: Arith, neg: bool, val: int, text: string, next: nat): Number {
    if val < TWO_63 then Number(JInt(if neg then -val else val), next) else Number(A.frac(text), next)
  }

  /** A number from `pos` on, and the position behind it. */
  function ScanNum(A: Arith, t: string, pos: nat): (r: Option<Number>)
    requires pos < |t| && (IsDigit(t[pos]) || t[pos] == '-')
    ensures r.Some? ==> pos < r.value.next <= |t|
  {
    var neg := t[pos] == '-';
    var p := if neg then pos + 1 else pos;
    if p >= |t| then Some(Number(JInt(0), p))
    else if !IsDigit(t[p]) then None
    else
      var num := Digit(t[p]);
      var p1 := p + 1;
      if p1 >= |t| then Some(Plain(A, neg, num, t[pos..p1], p1))
      else
        var p2 := if num != 0 then SkipDigits(t, p1) else p1;
        var val := Digits(A, t[p1..p2], num);
        var p3 := if At(t, p2) == '.' then SkipDigits(t, p2 + 1) else p2;
        if At(t, p3) != 'E' && At(t, p3) != 'e' then
          if p3 == p2 then Some(Plain(A, neg, val, t[pos..p2], p2)) else Some(Number(A.frac(t[pos..p3]), p3))
        else if p3 + 1 >= |t| then Some(Number(A.frac(t[pos..p3 + 1]), p3 + 1))
        else if t[p3 + 1] != '-' && t[p3 + 1] != '+' && !IsDigit(t[p3 + 1]) then None
        else
          var p4 := if IsDigit(t[p3 + 1]) then p3 + 1 else p3 + 2;
          var p5 := SkipDigits(t, p4);
          Some(Number(A.frac(t[pos..p5]), p5))
  }

  /** Does the word stand at this position? */
  predicate Word(t: string, pos: nat, w: string) {
    pos + |w| <= |t| && t[pos..pos + |w|] == w
  }

  /* ---- the loop ---- */

  /** Sets a key of a dictionary: in place if it is there, else at the end. */
  function SetKey(es: seq<Entry>, k: string, v: JVal): seq<Entry> {
    if es == [] then [Entry(k, v)]
    else if es[0].key == k then [Entry(k, v)] + es[1..]
    else [es[0]] + SetKey(es[1..], k, v)
  }

  /** A finished value goes into the array or dictionary under it. */
  function Attach(top: char, vals: seq<JVal>): Option<seq<JVal>> {
    var n := |vals|;
    if top == '[' then
      if n >= 2 && vals[n - 2].JArr? then Some(vals[..n - 2] + [JArr(vals[n - 2].items + [vals[n - 1]])]) else None
    else if top == ':' then
      if n >= 3 && vals[n - 3].JDict? && vals[n - 2].JStr? then
        Some(vals[..n - 3] + [JDict(SetKey(vals[n - 3].entries, vals[n - 2].s, vals[n - 1]))])
      else None
    else Some(vals)
  }

  /** Behind a value in an array or dictionary: where the loop goes on, which is at the next
      value, at the closing bracket, or at the text's end. */
  datatype Cursor = Refuse | End | Go(pos: nat)

  function NextItem(t: string, last: nat, rev: char): (c: Cursor)
    requires last < |t|
    ensures c.Go? ==> last < c.pos <= |t|
  {
    var p := SkipWs(t, last + 1);
    if p >= |t| then End
    else if t[p] != ',' && t[p] != rev then Refuse
    else if t[p] == ',' then
      var q := SkipWs(t, p + 1);
      if q >= |t| then End
      else if t[q] == rev then Refuse
      else if t[q] == ',' then Go(if t[q - 1] == ',' then q else q - 1)
      else Go(q)
    else Go(p)
  }

  function Top(brk: string): char
    requires brk != []
  {
    brk[|brk| - 1]
  }

  function Pop(brk: string): string
    requires brk != []
  {
    brk[..|brk| - 1]
  }

  /** The text has been read to its end. */
  function Finish(brk: string, vals: seq<JVal>): Option<JVal> {
    if |vals| > 0 && |brk| == 1 then Some(vals[|vals| - 1]) else None
  }

  /** A value ends at `last`. */
  function Push(A: Arith, t: string, last: nat, brk: string, vals: seq<JVal>): Option<JVal>
    requires last < |t| && brk != []
    decreases |t| - last, 0
  {
    var top := Top(brk);
    var c := if top == '[' then NextItem(t, last, ']') else if top == ':' then NextItem(t, last, '}') else Go(last + 1);
    if c.Refuse? then None
    else if c.End? then Finish(brk, vals)
    else
      var v := Attach(top, vals);
      if v.None? then None else Loop(A, t, c.pos, if top == ':' then Pop(brk) + ['{'] else brk, v.value)
  }

  function Loop(A: Arith, t: string, pos: nat, brk: string, vals: seq<JVal>): Option<JVal>
    requires pos <= |t| && brk != []
    decreases |t| - pos, 1
  {
    var p := SkipWs(t, pos);
    if p >= |t| then Finish(brk, vals)
    else
      var c, top := t[p], Top(brk);
      if top == '{' && c != '"' && c != '}' then None
      else if top == '\0' && |vals| > 0 then None
      else if c == '{' then Loop(A, t, p + 1, brk + ['{'], vals + [JDict([])])
      else if c == '}' then
        if (top != '{' && top != ':') || |brk| == 1 then None else Push(A, t, p, Pop(brk), vals)
      else if c == '[' then Loop(A, t, p + 1, brk + ['['], vals + [JArr([])])
      else if c == ']' then
        if top != '[' || |brk| == 1 then None else Push(A, t, p, Pop(brk), vals)
      else if c == '"' then
        var s := ScanStr(t, p + 1, "");
        if s.None? then None
        else if top == '{' then
          var q := SkipWs(t, s.value.quote + 1);
          if At(t, q) != ':' then None
          else Loop(A, t, q + 1, Pop(brk) + [':'], vals + [JStr(s.value.text)])
        else Push(A, t, s.value.quote, brk, vals + [JStr(s.value.text)])
      else if IsDigit(c) || c == '-' then
        var n := ScanNum(A, t, p);
        if n.None? then None else Push(A, t, n.value.next - 1, brk, vals + [n.value.v])
      else if Word(t, p, "null") then Push(A, t, p + 3, brk, vals + [JNull])
      else if Word(t, p, "true") then Push(A, t, p + 3, brk, vals + [JBool(true)])
      else if Word(t, p, "false") then Push(A, t, p + 4, brk, vals + [JBool(false)])
      else None
  }

  /** json_decode */
  function Decode(A: Arith, t: string): Option<JVal> {
    Loop(A, t, 0, "\0", [])
  }

  /* ---- the encoder ---- */

  /** "%d" */
  function Dec(n: nat): (s: string)
    ensures |s| > 0
  {
    if n < 10 then [(n + '0' as int) as char] else Dec(n / 10) + [(n % 10 + '0' as int) as char]
  }

  function Int(n: int): string {
    if n < 0 then "-" + Dec(-n) else Dec(n)
  }

  /** Quotes and backslashes are escaped, nothing else. */
  function Esc(s: string): string {
    if s == "" then "" else (if s[0] == '"' || s[0] == '\\' then ['\\', s[0]] else [s[0]]) + Esc(s[1..])
  }

  function Quote(s: string): string {
    "\"" + Esc(s) + "\""
  }

  /** The tokens that a value is encoded to. */
  function Toks(A: Arith, v: JVal): seq<string>
    decreases v
  {
    match v
    case JNull => ["null"]
    case JBool(b) => [if b then "true" else "false"]
    case JInt(n) => [Int(n)]
    case JReal(r) => [A.show(r)]
    case JStr(s) => [Quote(s)]
    case JArr(items) => ["["] + ItemToks(A, items) + ["]"]
    case JDict(entries) => ["{"] + EntryToks(A, entries) + ["}"]
  }

  function ItemToks(A: Arith, items: seq<JVal>): seq<string>
    decreases items
  {
    if items == [] then []
    else if |items| == 1 then Toks(A, items[0])
    else Toks(A, items[0]) + [","] + ItemToks(A, items[1..])
  }

  function EntryToks(A: Arith, entries: seq<Entry>): seq<string>
    decreases entries
  {
    if entries == [] then []
    else
      assert entries[0] decreases to entries[0].value;
      var first := [Quote(entries[0].key), ":"] + Toks(A, entries[0].value);
      if |entries| == 1 then first else first + [","] + EntryToks(A, entries[1..])
  }

  function Join(toks: seq<string>): string {
    if toks == [] then "" else toks[0] + Join(toks[1..])
  }

  /** json_encode: the tokens without anything between them. */
  function Encode(A: Arith, v: JVal): string {
    Join(Toks(A, v))
  }
}
