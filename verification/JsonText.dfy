/** JSON values and the canonical printer whose output is hashed into request fingerprints and digests. */
module JsonText {
  import opened Strings

  /** `Undefined` is included because the printer accepts it: a job request may carry no input. */
  datatype Json =
    | Undefined
    | Null
    | Bool(b: bool)
    | Number(n: real)
    | String(s: Str)
    | Array(items: seq<Json>)
    | Object(members: seq<Entry<Json>>)

  /** Object members have distinct names, at every depth. */
  ghost predicate WellFormed(v: Json)
  {
    match v
    case Array(items) => forall x :: x in items ==> WellFormed(x)
    case Object(members) => DistinctKeys(members) && forall m :: m in members ==> WellFormed(m.value)
    case _ => true
  }

  // ---------------------------------------------------------------- strings

  predicate IsHighSurrogate(u: CodeUnit) { 0xD800 <= u < 0xDC00 }

  predicate IsLowSurrogate(u: CodeUnit) { 0xDC00 <= u < 0xE000 }

  function HexDigit(d: int): CodeUnit
    requires 0 <= d < 16
  {
    if d < 10 then 48 + d else 87 + d
  }

  function UnicodeEscape(u: CodeUnit): Str
  {
    [92, 117, HexDigit(u / 16 / 16 / 16), HexDigit(u / 16 / 16 % 16), HexDigit(u / 16 % 16), HexDigit(u % 16)]
  }

  /** What `JSON.stringify` writes for a code unit that is not half of a surrogate pair. */
  function Token(u: CodeUnit): (r: Str)
    ensures r != [] && r[0] != 34
  {
    if u == 8 then [92, 98]
    else if u == 9 then [92, 116]
    else if u == 10 then [92, 110]
    else if u == 12 then [92, 102]
    else if u == 13 then [92, 114]
    else if u == 34 then [92, 34]
    else if u == 92 then [92, 92]
    else if u < 32 || IsHighSurrogate(u) || IsLowSurrogate(u) then UnicodeEscape(u)
    else [u]
  }

  predicate StartsWithPair(s: Str)
  {
    |s| > 1 && IsHighSurrogate(s[0]) && IsLowSurrogate(s[1])
  }

  function Escape(s: Str): Str
  {
    if s == [] then []
    else if StartsWithPair(s) then [s[0], s[1]] + Escape(s[2..])
    else Token(s[0]) + Escape(s[1..])
  }

  function Quote(s: Str): Str
  {
    [34] + Escape(s) + [34]
  }

  // ---------------------------------------------------------------- printer

  /** Decimal text of a finite number; only its injectivity and alphabet matter. */
  type NumberFormat = real -> Str

  predicate NumberUnit(u: CodeUnit)
  {
    48 <= u <= 57 || u == 43 || u == 45 || u == 46 || u == 101
  }

  ghost predicate GoodFormat(format: NumberFormat)
  {
    && (forall r :: format(r) != [] && forall i :: 0 <= i < |format(r)| ==> NumberUnit(format(r)[i]))
    && (forall q, r :: format(q) == format(r) ==> q == r)
  }

  /** `Array.prototype.join(',')` over already printed elements. */
  function Join(parts: seq<Str>): Str
  {
    if parts == [] then []
    else if |parts| == 1 then parts[0]
    else parts[0] + [44] + Join(parts[1..])
  }

  function JoinMembers(parts: seq<Entry<Str>>): Str
  {
    if parts == [] then []
    else if |parts| == 1 then Quote(parts[0].key) + [58] + parts[0].value
    else Quote(parts[0].key) + [58] + parts[0].value + [44] + JoinMembers(parts[1..])
  }

  /** `stableJobJson`, and `canonical` in the planner. Array elements that are undefined join as empty text. */
  function Print(format: NumberFormat, v: Json): Str
    decreases v, 1
  {
    match v
    case Undefined => Lit("undefined")
    case Null => Lit("null")
    case Bool(b) => if b then Lit("true") else Lit("false")
    case Number(n) => format(n)
    case String(s) => Quote(s)
    case Array(items) => [91] + Join(PrintItems(format, items)) + [93]
    case Object(members) => [123] + JoinMembers(SortByKey(PrintMembers(format, members))) + [125]
  }

  function PrintItem(format: NumberFormat, v: Json): Str
    decreases v, 2
  {
    if v.Undefined? then [] else Print(format, v)
  }

  function PrintItems(format: NumberFormat, items: seq<Json>): (r: seq<Str>)
    ensures |r| == |items|
    ensures forall i :: 0 <= i < |items| ==> r[i] == PrintItem(format, items[i])
    decreases items, 0
  {
    if items == [] then [] else [PrintItem(format, items[0])] + PrintItems(format, items[1..])
  }

  function PrintMembers(format: NumberFormat, members: seq<Entry<Json>>): (r: seq<Entry<Str>>)
    ensures |r| == |members|
    ensures forall i :: 0 <= i < |members| ==> r[i] == Entry(members[i].key, Print(format, members[i].value))
    decreases members, 0
  {
    if members == [] then []
    else [Entry(members[0].key, Print(format, members[0].value))] + PrintMembers(format, members[1..])
  }
}
