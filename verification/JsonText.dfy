/** JSON texts as section 2 and the following of RFC 8259 have them, how they are written, and
    what they mean: the reference for the decoder and the encoder. */
module JsonText {
  import opened Json

  /* ---- strings ---- */

  /** A character of a string as it is written: itself, a backslash and a letter, or a backslash,
      `u` and four hexadecimal digits. */
  datatype Spelling = Raw(c: char) | Letter(l: char) | Code(h: string)

  /** The escapes of section 7. */
  const ESCAPES: map<char, char> :=
    map['"' := '"', '\\' := '\\', '/' := '/', 'b' := 8 as char, 'f' := 12 as char, 'n' := 10 as char, 'r' := 13 as char,
        't' := 9 as char]

  const HEX: string := "0123456789abcdef"
  const HEX_UPPER: string := "0123456789ABCDEF"

  function Place(s: string, c: char): nat {
    if s == "" || s[0] == c then 0 else 1 + Place(s[1..], c)
  }

  function HexValue(h: string): nat {
    if h == "" then 0
    else
      var c := h[|h| - 1];
      16 * HexValue(h[..|h| - 1]) + (if c in HEX then Place(HEX, c) else Place(HEX_UPPER, c))
  }

  predicate IsCode(h: string) {
    |h| == 4 && forall i | 0 <= i < 4 :: h[i] in HEX || h[i] in HEX_UPPER
  }

  /** `s` is the UTF-8 form of code `u` (section 3 of RFC 3629). */
  predicate IsUtf8(u: int, s: string) {
    if u < 0x80 then |s| == 1 && u == s[0] as int
    else if u < 0x800 then
      && |s| == 2 && 0xC0 <= s[0] as int < 0xE0 && 0x80 <= s[1] as int < 0xC0
      && u == 0x40 * (s[0] as int - 0xC0) + (s[1] as int - 0x80)
    else
      && |s| == 3 && 0xE0 <= s[0] as int < 0xF0 && 0x80 <= s[1] as int < 0xC0 && 0x80 <= s[2] as int < 0xC0
      && u == 0x1000 * (s[0] as int - 0xE0) + 0x40 * (s[1] as int - 0x80) + (s[2] as int - 0x80)
  }

  predicate SpellOk(x: Spelling) {
    match x
    case Raw(c) => c as int >= 0x20 && c != '"' && c != '\\'
    case Letter(l) => l in ESCAPES
    case Code(h) => IsCode(h)
  }

  predicate StrOk(cs: seq<Spelling>) {
    forall i | 0 <= i < |cs| :: SpellOk(cs[i])
  }

  function SpellText(x: Spelling): string {
    match x
    case Raw(c) => [c]
    case Letter(l) => ['\\', l]
    case Code(h) => ['\\', 'u'] + h
  }

  function StrText(cs: seq<Spelling>): string {
    if cs == [] then "" else SpellText(cs[0]) + StrText(cs[1..])
  }

  function Quoted(cs: seq<Spelling>): string {
    "\"" + StrText(cs) + "\""
  }

  lemma HexRange(h: string)
    requires IsCode(h)
    ensures HexValue(h) < 0x10000
  {
    HexBound(h);
  }

  lemma {:induction false} HexBound(h: string)
    requires |h| <= 4 && forall i | 0 <= i < |h| :: h[i] in HEX || h[i] in HEX_UPPER
    ensures HexValue(h) < [0x1, 0x10, 0x100, 0x1000, 0x10000][|h|]
    decreases |h|
  {
    hide HEX, HEX_UPPER;
    if h != "" {
      var c := h[|h| - 1];
      if c in HEX { PlaceIn(HEX, c); } else { PlaceIn(HEX_UPPER, c); }
      HexSizes();
      HexBound(h[..|h| - 1]);
    }
  }

  lemma HexSizes()
    ensures |HEX| == 16 && |HEX_UPPER| == 16
  {
  }

  lemma {:induction false} PlaceIn(s: string, c: char)
    requires c in s
    ensures Place(s, c) < |s| && s[Place(s, c)] == c
    decreases |s|
  {
    if s[0] != c { PlaceIn(s[1..], c); }
  }

  function SpellMeans(x: Spelling): string
    requires SpellOk(x)
  {
    match x
    case Raw(c) => [c]
    case Letter(l) => [ESCAPES[l]]
    case Code(h) => HexRange(h); Utf8(HexValue(h))
  }

  function StrMeans(cs: seq<Spelling>): string
    requires StrOk(cs)
  {
    if cs == [] then "" else SpellMeans(cs[0]) + StrMeans(cs[1..])
  }

  /* ---- numbers ---- */

  datatype Exponent = Exponent(e: char, sign: string, digits: string)

  datatype Numeral = Numeral(neg: bool, whole: string, frac: Option<string>, exp: Option<Exponent>)

  predicate AllDigits(s: string) {
    forall i | 0 <= i < |s| :: '0' <= s[i] <= '9'
  }

  /** The value of decimal digits. */
  function Val(ds: string): nat
    requires AllDigits(ds)
  {
    if ds == "" then 0 else 10 * Val(ds[..|ds| - 1]) + (ds[|ds| - 1] as int - '0' as int)
  }

  predicate ExpOk(x: Exponent) {
    && (x.e == 'e' || x.e == 'E') && (x.sign == "" || x.sign == "+" || x.sign == "-")
    && x.digits != "" && AllDigits(x.digits)
  }

  /** Section 6: no leading zeros, digits behind the point and in the exponent; plain integers
      have a magnitude of at most 2^53. */
  predicate NumOk(x: Numeral) {
    && x.whole != "" && AllDigits(x.whole) && (x.whole[0] == '0' ==> |x.whole| == 1)
    && (x.frac.Some? ==> x.frac.value != "" && AllDigits(x.frac.value)) && (x.exp.Some? ==> ExpOk(x.exp.value))
    && (x.frac.None? && x.exp.None? ==> Val(x.whole) <= TWO_53)
  }

  function FracText(x: Numeral): string {
    if x.frac.Some? then "." + x.frac.value else ""
  }

  function ExpText(x: Numeral): string {
    if x.exp.Some? then [x.exp.value.e] + x.exp.value.sign + x.exp.value.digits else ""
  }

  function NumText(x: Numeral): string {
    (if x.neg then "-" else "") + x.whole + (FracText(x) + ExpText(x))
  }

  /** Integers are read exactly; how others round is the machine's affair. */
  function NumMeans(A: Arith, x: Numeral): JVal
    requires NumOk(x)
  {
    if x.frac.None? && x.exp.None? then JInt(if x.neg then 0 - Val(x.whole) else Val(x.whole))
    else A.frac(NumText(x))
  }

  /* ---- texts ---- */

  datatype Text =
    | TNull | TBool(b: bool) | TNum(n: Numeral) | TStr(cs: seq<Spelling>) | TArr(items: seq<Text>)
    | TDict(entries: seq<Pair>)

  datatype Pair = Pair(key: seq<Spelling>, value: Text)

  predicate TextOk(x: Text)
    decreases x
  {
    match x
    case TNum(n) => NumOk(n)
    case TStr(cs) => StrOk(cs)
    case TArr(items) => ItemsOk(items)
    case TDict(entries) => PairsOk(entries)
    case _ => true
  }

  predicate ItemsOk(items: seq<Text>)
    decreases items
  {
    items != [] ==> TextOk(items[0]) && ItemsOk(items[1..])
  }

  predicate PairsOk(ps: seq<Pair>)
    decreases ps
  {
    ps != [] ==>
      StrOk(ps[0].key) && (assert ps[0] decreases to ps[0].value; TextOk(ps[0].value)) && PairsOk(ps[1..])
  }

  /** The tokens of a text. */
  function Tokens(x: Text): seq<string>
    decreases x
  {
    match x
    case TNull => ["null"]
    case TBool(b) => [if b then "true" else "false"]
    case TNum(n) => [NumText(n)]
    case TStr(cs) => [Quoted(cs)]
    case TArr(items) => ["["] + ItemTokens(items) + ["]"]
    case TDict(entries) => ["{"] + PairTokens(entries) + ["}"]
  }

  function ItemTokens(items: seq<Text>): seq<string>
    decreases items
  {
    if items == [] then []
    else if |items| == 1 then Tokens(items[0])
    else Tokens(items[0]) + [","] + ItemTokens(items[1..])
  }

  function PairTokens(ps: seq<Pair>): seq<string>
    decreases ps
  {
    if ps == [] then []
    else
      assert ps[0] decreases to ps[0].value;
      var first := [Quoted(ps[0].key), ":"] + Tokens(ps[0].value);
      if |ps| == 1 then first else first + [","] + PairTokens(ps[1..])
  }

  function Means(A: Arith, x: Text): JVal
    requires TextOk(x)
    decreases x
  {
    match x
    case TNull => JNull
    case TBool(b) => JBool(b)
    case TNum(n) => NumMeans(A, n)
    case TStr(cs) => JStr(StrMeans(cs))
    case TArr(items) => JArr(ItemsMean(A, items))
    case TDict(entries) => JDict(Dictionary(PairsMean(A, entries)))
  }

  function ItemsMean(A: Arith, items: seq<Text>): seq<JVal>
    requires ItemsOk(items)
    decreases items
  {
    if items == [] then [] else [Means(A, items[0])] + ItemsMean(A, items[1..])
  }

  function PairsMean(A: Arith, ps: seq<Pair>): seq<Entry>
    requires PairsOk(ps)
    decreases ps
  {
    if ps == [] then []
    else
      assert ps[0] decreases to ps[0].value;
      [Entry(StrMeans(ps[0].key), Means(A, ps[0].value))] + PairsMean(A, ps[1..])
  }

  /* ---- keys that occur more than once ---- */

  predicate HasKey(es: seq<Entry>, k: string) {
    exists i :: 0 <= i < |es| && es[i].key == k
  }

  function Without(es: seq<Entry>, k: string): (r: seq<Entry>)
    ensures |r| <= |es|
  {
    if es == [] then [] else (if es[0].key == k then [] else [es[0]]) + Without(es[1..], k)
  }

  /** The value that stands last for a key. */
  function LastValue(es: seq<Entry>, k: string): JVal {
    if es == [] then JNull
    else
      var n := |es| - 1;
      if es[n].key == k then es[n].value else LastValue(es[..n], k)
  }

  /** Every key once, where it stands first, with the value that stands last for it. */
  function Dictionary(es: seq<Entry>): seq<Entry>
    decreases |es|
  {
    if es == [] then []
    else [Entry(es[0].key, LastValue(es, es[0].key))] + Dictionary(Without(es[1..], es[0].key))
  }
}
