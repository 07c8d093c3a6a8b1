/**
 * JSON (RFC 8259), on texts of 16-bit units: `strictParse` of runtime/hermit/protocol/codec.js, and `JSON.parse`, which
 * bounds neither depth nor the length of a number, takes the last of several members with one key, and reads a number
 * that is too large as an infinite one.
 *
 * A finite number is the text the language prints for it; `num` gives that text for a number as written, or nothing
 * when its value is not finite. An object keeps the order of its members.
 */
module JsonModel {
  import opened Common
  import opened Utf16

  datatype Json =
    | Null
    | Bool(b: bool)
    | Num(printed: Text)
    | NotFinite(which: Special)
    | Str(text: Text)
    | Arr(items: Items)
    | Obj(fields: Fields)

  /** The numbers that JSON has no text for. */
  datatype Special = PosInf | NegInf | NaN

  datatype Items = INil | ICons(head: Json, tail: Items)

  datatype Fields = FNil | FCons(key: Text, value: Json, rest: Fields)

  datatype Error = TooDeep | End | Token | Comma | Colon | Key | Duplicate | Unterminated | Control | Escape | NotNumber
      | NonFinite | Trailing

  datatype Parsed<T> = Got(value: T, rest: Text) | Bad(error: Error)

  datatype Rules = Rules(maxDepth: nat, num: Text -> Option<Text>, strict: bool)

  /** The rules of `strictParse`. */
  type StrictRules = z: Rules | z.strict witness Rules(0, (t: Text) => None, true)

  // the characters of the grammar
  const QUOTE: Unit := 0x22
  const BACKSLASH: Unit := 0x5C
  const COMMA: Unit := 0x2C
  const COLON: Unit := 0x3A
  const OPEN_ARRAY: Unit := 0x5B
  const CLOSE_ARRAY: Unit := 0x5D
  const OPEN_OBJECT: Unit := 0x7B
  const CLOSE_OBJECT: Unit := 0x7D
  const MINUS: Unit := 0x2D
  const PLUS: Unit := 0x2B
  const POINT: Unit := 0x2E
  const ZERO: Unit := 0x30
  const TRUE_TEXT: Text := [0x74, 0x72, 0x75, 0x65]
  const FALSE_TEXT: Text := [0x66, 0x61, 0x6C, 0x73, 0x65]
  const NULL_TEXT: Text := [0x6E, 0x75, 0x6C, 0x6C]

  predicate IsSpace(c: Unit) { c == 0x20 || c == 0x0A || c == 0x0D || c == 0x09 }

  predicate IsDigit(c: Unit) { 0x30 <= c <= 0x39 }

  predicate IsExp(c: Unit) { c == 0x65 || c == 0x45 }

  function SkipSpace(s: Text): (r: Text)
    ensures |r| <= |s|
  {
    if s != [] && IsSpace(s[0]) then SkipSpace(s[1..]) else s
  }

  predicate At(s: Text, c: Unit) { s != [] && s[0] == c }

  // ------------------------------------------------------------------ numbers

  function Digits(s: Text): (n: nat)
    ensures n <= |s|
  {
    if s != [] && IsDigit(s[0]) then 1 + Digits(s[1..]) else 0
  }

  function IntLen(s: Text): (n: nat)
    ensures n <= |s|
  {
    if s == [] then 0 else if s[0] == ZERO then 1 else Digits(s)
  }

  function FracLen(s: Text): (n: nat)
    ensures n <= |s|
  {
    if At(s, POINT) && Digits(s[1..]) > 0 then 1 + Digits(s[1..]) else 0
  }

  function SignLen(s: Text): (n: nat)
    ensures n <= |s|
  {
    if At(s, PLUS) || At(s, MINUS) then 1 else 0
  }

  function ExpLen(s: Text): (n: nat)
    ensures n <= |s|
  {
    if s != [] && IsExp(s[0]) && Digits(s[1 + SignLen(s[1..])..]) > 0
    then 1 + SignLen(s[1..]) + Digits(s[1 + SignLen(s[1..])..]) else 0
  }

  function MinusLen(s: Text): (n: nat)
    ensures n <= |s|
  {
    if At(s, MINUS) then 1 else 0
  }

  /** The optional fraction and exponent behind the integer part. */
  function AfterInt(s: Text): (n: nat)
    ensures n <= |s|
  {
    var c := FracLen(s);
    c + ExpLen(s[c..])
  }

  /** The length of the longest number at the beginning of a text, or 0. */
  function NumberLen(s: Text): (n: nat)
    ensures n <= |s|
  {
    var a := MinusLen(s);
    var b := IntLen(s[a..]);
    if b == 0 then 0 else a + b + AfterInt(s[a + b..])
  }

  /** Strict parsing looks at 64 units only. */
  function Window(z: Rules, s: Text): Text { if z.strict && |s| > 64 then s[..64] else s }

  function Infinite(t: Text): Json { NotFinite(if At(t, MINUS) then NegInf else PosInf) }

  function Number(z: Rules, s: Text): Parsed<Json> {
    var n := NumberLen(Window(z, s));
    if n == 0 then Bad(NotNumber)
    else
      match z.num(s[..n])
      case None => if z.strict then Bad(NonFinite) else Got(Infinite(s[..n]), s[n..])
      case Some(t) => Got(Num(t), s[n..])
  }

  // ------------------------------------------------------------------ members

  predicate HasKey(fs: Fields, k: Text) { fs.FCons? && (fs.key == k || HasKey(fs.rest, k)) }

  function Lookup(fs: Fields, k: Text): Json
    requires HasKey(fs, k)
  {
    if fs.key == k then fs.value else Lookup(fs.rest, k)
  }

  function Without(fs: Fields, k: Text): Fields {
    match fs case FNil => FNil case FCons(j, v, rest) => if j == k then rest else FCons(j, v, Without(rest, k))
  }

  /** A member before others: of several with one key the last one counts, in the place of the first. */
  function Put(k: Text, v: Json, fs: Fields): Fields {
    if HasKey(fs, k) then FCons(k, Lookup(fs, k), Without(fs, k)) else FCons(k, v, fs)
  }

  // ------------------------------------------------------------------ strings

  function HexValue(c: Unit): int {
    if 0x30 <= c <= 0x39 then c - 0x30
    else if 0x61 <= c <= 0x66 then c - 0x57
    else if 0x41 <= c <= 0x46 then c - 0x37
    else -1
  }

  predicate FourHex(s: Text) {
    |s| >= 4 && HexValue(s[0]) >= 0 && HexValue(s[1]) >= 0 && HexValue(s[2]) >= 0 && HexValue(s[3]) >= 0
  }

  function HexUnit(a: nat, b: nat, c: nat, d: nat): nat { a * 4096 + b * 256 + c * 16 + d }

  function ToUnit(n: int): Unit
    requires 0 <= n < 0x10000
  {
    n
  }

  function ReadHex(s: Text): Unit
    requires FourHex(s)
  {
    ToUnit(HexUnit(HexValue(s[0]), HexValue(s[1]), HexValue(s[2]), HexValue(s[3])))
  }

  /** What a one-letter escape stands for. */
  function Unescaped(e: Unit): Option<Unit> {
    if e == QUOTE || e == BACKSLASH || e == 0x2F then Some(e)
    else if e == 0x62 then Some(8) else if e == 0x66 then Some(12) else if e == 0x6E then Some(10)
    else if e == 0x72 then Some(13) else if e == 0x74 then Some(9) else None
  }

  /** The rest of a string literal after its opening quote. */
  function Chars(s: Text): (p: Parsed<Text>)
    ensures p.Got? ==> |p.rest| < |s|
    decreases |s|
  {
    if s == [] then Bad(Unterminated)
    else if s[0] == QUOTE then Got([], s[1..])
    else if s[0] < 0x20 then Bad(Control)
    else if s[0] == BACKSLASH then
      if At(s[1..], 0x75) then
        if !FourHex(s[2..]) then Bad(Escape) else Prepend(ReadHex(s[2..]), Chars(s[6..]))
      else if s[1..] == [] || Unescaped(s[1]).None? then Bad(Escape)
      else Prepend(Unescaped(s[1]).value, Chars(s[2..]))
    else Prepend(s[0], Chars(s[1..]))
  }

  function Prepend(u: Unit, p: Parsed<Text>): Parsed<Text> {
    match p case Bad(e) => Bad(e) case Got(t, rest) => Got([u] + t, rest)
  }

  // ------------------------------------------------------------------ values

  function Value(z: Rules, s: Text, depth: nat): (p: Parsed<Json>)
    ensures p.Got? ==> |p.rest| < |s|
    decreases |s|, 2
  {
    if depth > z.maxDepth then Bad(TooDeep)
    else
      var t := SkipSpace(s);
      if t == [] then Bad(End)
      else if t[0] == OPEN_OBJECT then Object(z, t[1..], depth)
      else if t[0] == OPEN_ARRAY then Array(z, t[1..], depth)
      else if t[0] == QUOTE then
        match Chars(t[1..]) case Bad(e) => Bad(e) case Got(x, rest) => Got(Str(x), rest)
      else if t[0] == MINUS || IsDigit(t[0]) then Number(z, t)
      else if TRUE_TEXT <= t then Got(Bool(true), t[4..])
      else if FALSE_TEXT <= t then Got(Bool(false), t[5..])
      else if NULL_TEXT <= t then Got(Null, t[4..])
      else Bad(Token)
  }

  function Object(z: Rules, s: Text, depth: nat): (p: Parsed<Json>)
    ensures p.Got? ==> |p.rest| < |s|
    decreases |s|, 1
  {
    var t := SkipSpace(s);
    if At(t, CLOSE_OBJECT) then Got(Obj(FNil), t[1..])
    else
      match Members(z, s, depth, {})
      case Bad(e) => Bad(e)
      case Got(fs, rest) => Got(Obj(fs), rest)
  }

  function Members(z: Rules, s: Text, depth: nat, seen: set<Text>): (p: Parsed<Fields>)
    ensures p.Got? ==> |p.rest| < |s|
    decreases |s|, 0
  {
    var t := SkipSpace(s);
    if !At(t, QUOTE) then Bad(Key)
    else
      match Chars(t[1..])
      case Bad(e) => Bad(e)
      case Got(k, afterKey) =>
        if z.strict && k in seen then Bad(Duplicate)
        else
          var u := SkipSpace(afterKey);
          if !At(u, COLON) then Bad(Colon)
          else
            match Value(z, u[1..], depth + 1)
            case Bad(e) => Bad(e)
            case Got(v, afterValue) =>
              var w := SkipSpace(afterValue);
              if At(w, COMMA) then
                match Members(z, w[1..], depth, seen + {k})
                case Bad(e) => Bad(e)
                case Got(fs, rest) => Got(if z.strict then FCons(k, v, fs) else Put(k, v, fs), rest)
              else if At(w, CLOSE_OBJECT) then Got(FCons(k, v, FNil), w[1..])
              else Bad(Comma)
  }

  function Array(z: Rules, s: Text, depth: nat): (p: Parsed<Json>)
    ensures p.Got? ==> |p.rest| < |s|
    decreases |s|, 4
  {
    var t := SkipSpace(s);
    if At(t, CLOSE_ARRAY) then Got(Arr(INil), t[1..])
    else
      match Elements(z, s, depth)
      case Bad(e) => Bad(e)
      case Got(xs, rest) => Got(Arr(xs), rest)
  }

  function Elements(z: Rules, s: Text, depth: nat): (p: Parsed<Items>)
    ensures p.Got? ==> |p.rest| < |s|
    decreases |s|, 3
  {
    match Value(z, s, depth + 1)
    case Bad(e) => Bad(e)
    case Got(v, afterValue) =>
      var w := SkipSpace(afterValue);
      if At(w, COMMA) then
        match Elements(z, w[1..], depth)
        case Bad(e) => Bad(e)
        case Got(xs, rest) => Got(ICons(v, xs), rest)
      else if At(w, CLOSE_ARRAY) then Got(ICons(v, INil), w[1..])
      else Bad(Comma)
  }

  function Parse(z: Rules, s: Text): Result<Json, Error> {
    match Value(z, s, 0)
    case Bad(e) => Err(e)
    case Got(v, rest) => if SkipSpace(rest) == [] then Ok(v) else Err(Trailing)
  }

  // ------------------------------------------------------------------ printing

  function HexDigit(n: nat): Unit
    requires n < 16
  {
    if n < 10 then 0x30 + n else 0x57 + n
  }

  function HexEscape(u: Unit): Text {
    [BACKSLASH, 0x75, HexDigit(u / 4096), HexDigit(u / 256 % 16), HexDigit(u / 16 % 16), HexDigit(u % 16)]
  }

  function Escaped(u: Unit): Text {
    if u == QUOTE || u == BACKSLASH then [BACKSLASH, u]
    else if u == 8 then [BACKSLASH, 0x62] else if u == 12 then [BACKSLASH, 0x66] else if u == 10 then [BACKSLASH, 0x6E]
    else if u == 13 then [BACKSLASH, 0x72] else if u == 9 then [BACKSLASH, 0x74]
    else HexEscape(u)
  }

  /** A unit as `JSON.stringify` prints it: pairs of surrogates stay, a surrogate alone is escaped. */
  function PrintUnit(u: Unit, alone: bool): Text {
    if u < 0x20 || u == QUOTE || u == BACKSLASH || ((High(u) || Low(u)) && alone) then Escaped(u) else [u]
  }

  function PrintChars(s: Text): Text {
    if s == [] then []
    else if Paired(s) then [s[0], s[1]] + PrintChars(s[2..])
    else PrintUnit(s[0], true) + PrintChars(s[1..])
  }

  function PrintString(s: Text): Text { [QUOTE] + PrintChars(s) + [QUOTE] }

  function Print(v: Json): Text {
    match v
    case Null => NULL_TEXT
    case Bool(b) => if b then TRUE_TEXT else FALSE_TEXT
    case Num(t) => t
    case NotFinite(_) => NULL_TEXT
    case Str(s) => PrintString(s)
    case Arr(INil) => [OPEN_ARRAY, CLOSE_ARRAY]
    case Arr(xs) => [OPEN_ARRAY] + PrintItems(xs)
    case Obj(FNil) => [OPEN_OBJECT, CLOSE_OBJECT]
    case Obj(fs) => [OPEN_OBJECT] + PrintFields(fs)
  }

  /** Items up to and with the closing bracket. */
  function PrintItems(xs: Items): Text {
    match xs
    case INil => []
    case ICons(v, INil) => Print(v) + [CLOSE_ARRAY]
    case ICons(v, rest) => Print(v) + [COMMA] + PrintItems(rest)
  }

  function PrintFields(fs: Fields): Text {
    match fs
    case FNil => []
    case FCons(k, v, FNil) => PrintString(k) + [COLON] + Print(v) + [CLOSE_OBJECT]
    case FCons(k, v, rest) => PrintString(k) + [COLON] + Print(v) + [COMMA] + PrintFields(rest)
  }

  // ------------------------------------------------------------------ values of the language

  function Max(a: nat, b: nat): nat { if a >= b then a else b }

  /** How deep a value nests: nothing for a scalar or an empty collection. */
  function Depth(v: Json): nat {
    match v case Arr(xs) => ItemsDepth(xs) case Obj(fs) => FieldsDepth(fs) case _ => 0
  }

  function ItemsDepth(xs: Items): nat {
    match xs case INil => 0 case ICons(v, rest) => Max(1 + Depth(v), ItemsDepth(rest))
  }

  function FieldsDepth(fs: Fields): nat {
    match fs case FNil => 0 case FCons(_, v, rest) => Max(1 + Depth(v), FieldsDepth(rest))
  }

  /** A number as the language prints it, and reads it back. */
  predicate GoodNumber(z: Rules, t: Text) {
    0 < |t| <= 64 && NumberLen(t) == |t| && z.num(t) == Some(t)
  }

  /** No key twice in any object, and numbers finite and as they are printed. */
  predicate Good(z: Rules, v: Json) {
    match v
    case Num(t) => GoodNumber(z, t)
    case NotFinite(_) => false
    case Arr(xs) => GoodItems(z, xs)
    case Obj(fs) => GoodFields(z, fs)
    case _ => true
  }

  predicate GoodItems(z: Rules, xs: Items) {
    match xs case INil => true case ICons(v, rest) => Good(z, v) && GoodItems(z, rest)
  }

  predicate GoodFields(z: Rules, fs: Fields) {
    match fs case FNil => true case FCons(k, v, rest) => !HasKey(rest, k) && Good(z, v) && GoodFields(z, rest)
  }

  // ------------------------------------------------------------------ numbers that have no text

  /** What is left of a value that was written and read: `null` for every number that is not finite. */
  function Nulled(v: Json): Json {
    match v
    case NotFinite(_) => Null
    case Arr(xs) => Arr(NulledItems(xs))
    case Obj(fs) => Obj(NulledFields(fs))
    case _ => v
  }

  function NulledItems(xs: Items): Items {
    match xs case INil => INil case ICons(v, rest) => ICons(Nulled(v), NulledItems(rest))
  }

  function NulledFields(fs: Fields): Fields {
    match fs case FNil => FNil case FCons(k, v, rest) => FCons(k, Nulled(v), NulledFields(rest))
  }

  /** Every number of the value is finite. */
  predicate Finite(v: Json) {
    match v
    case NotFinite(_) => false
    case Arr(xs) => FiniteItems(xs)
    case Obj(fs) => FiniteFields(fs)
    case _ => true
  }

  predicate FiniteItems(xs: Items) { xs.ICons? ==> Finite(xs.head) && FiniteItems(xs.tail) }

  predicate FiniteFields(fs: Fields) { fs.FCons? ==> Finite(fs.value) && FiniteFields(fs.rest) }

  /** A value that can be written: no key twice, and finite numbers as they are printed. */
  predicate Sound(z: Rules, v: Json) { Good(z, Nulled(v)) }
}
