/** The canonical JSON encoder: sorted keys, no floats, no whitespace but one final newline. */
module CanonicalJson {
  import opened Wrappers
  import opened Numerals
  import opened SortedEntries

  /** A Python value made of None, bool, int, str, list or tuple, str-keyed dict (in insertion order), float. */
  datatype Json =
    | Null
    | Bool(b: bool)
    | Int(n: int)
    | Str(s: string)
    | Arr(items: seq<Json>)
    | Obj(members: seq<Entry<Json>>)
    | Float(r: real)

  datatype EncodingError = TypeError

  /** Dictionaries have no repeated key, at any depth. */
  predicate WellFormed(j: Json)
    decreases j
  {
    match j
    case Arr(items) => forall i :: 0 <= i < |items| ==> WellFormed(items[i])
    case Obj(ms) => Distinct(ms) && forall i :: 0 <= i < |ms| ==> WellFormed(ms[i].val)
    case _ => true
  }

  // ---------- the float ban

  predicate FloatFree(j: Json)
    decreases j
  {
    match j
    case Float(_) => false
    case Arr(items) => forall i :: 0 <= i < |items| ==> FloatFree(items[i])
    case Obj(ms) => forall i :: 0 <= i < |ms| ==> FloatFree(ms[i].val)
    case _ => true
  }

  /** The value found by following element and member positions downwards. */
  function At(j: Json, path: seq<nat>): Option<Json> {
    if path == [] then Some(j)
    else match j
      case Arr(items) => if path[0] < |items| then At(items[path[0]], path[1..]) else None
      case Obj(ms) => if path[0] < |ms| then At(ms[path[0]].val, path[1..]) else None
      case _ => None
  }

  ghost predicate FloatAtSomeDepth(j: Json) {
    exists path: seq<nat> :: At(j, path).Some? && At(j, path).value.Float?
  }

  // ---------- strings

  const BACKSLASH: char := '\\'
  const QUOTE: char := '\"'

  /** One character as json.dumps with ensure_ascii=False writes it. */
  function EscapeChar(c: char): (s: string)
    ensures |s| > 0
  {
    if c == QUOTE then [BACKSLASH, QUOTE]
    else if c == BACKSLASH then [BACKSLASH, BACKSLASH]
    else if c as int == 8 then [BACKSLASH, 'b']
    else if c as int == 12 then [BACKSLASH, 'f']
    else if c as int == 10 then [BACKSLASH, 'n']
    else if c as int == 13 then [BACKSLASH, 'r']
    else if c as int == 9 then [BACKSLASH, 't']
    else if c as int < 0x20 then [BACKSLASH, 'u'] + HexText(c as int, 4)
    else [c]
  }

  function Escape(s: string): string {
    if s == [] then [] else EscapeChar(s[0]) + Escape(s[1..])
  }

  function Quote(s: string): string {
    [QUOTE] + Escape(s) + [QUOTE]
  }

  function IntText(n: int): (s: string)
    ensures |s| > 0 && (IsDigit(s[0]) || s[0] == '-')
  {
    if n < 0 then "-" + DecText(-n) else DecText(n)
  }

  // ---------- the encoder

  /** What json.dumps with sort_keys=True produces; a float is unreachable after the ban and prints as nothing. */
  function Encode(j: Json): string
    decreases j
  {
    match j
    case Null => "null"
    case Bool(b) => if b then "true" else "false"
    case Int(n) => IntText(n)
    case Str(s) => Quote(s)
    case Arr(items) => "[" + JoinItems(EncodeItems(items)) + "]"
    case Obj(ms) => "{" + JoinMembers(Sort(EncodeMembers(ms))) + "}"
    case Float(_) => ""
  }

  function EncodeItems(items: seq<Json>): (texts: seq<string>)
    ensures |texts| == |items|
    decreases items
  {
    if items == [] then [] else [Encode(items[0])] + EncodeItems(items[1..])
  }

  function EncodeMembers(ms: seq<Entry<Json>>): (texts: seq<Entry<string>>)
    ensures |texts| == |ms|
    decreases ms
  {
    if ms == [] then [] else [Entry(ms[0].key, Encode(ms[0].val))] + EncodeMembers(ms[1..])
  }

  function JoinItems(texts: seq<string>): string {
    if texts == [] then ""
    else if |texts| == 1 then texts[0]
    else texts[0] + "," + JoinItems(texts[1..])
  }

  function MemberText(e: Entry<string>): string {
    Quote(e.key) + ":" + e.val
  }

  function JoinMembers(texts: seq<Entry<string>>): string {
    if texts == [] then ""
    else if |texts| == 1 then MemberText(texts[0])
    else MemberText(texts[0]) + "," + JoinMembers(texts[1..])
  }

  function CanonicalDumps(j: Json): Result<string, EncodingError> {
    if FloatFree(j) then Ok(Encode(j) + "\n") else Err(TypeError)
  }

  // ---------- content: what a tree means once key order is forgotten

  datatype Content =
    | NullContent
    | BoolContent(b: bool)
    | IntContent(n: int)
    | StrContent(s: string)
    | ListContent(items: seq<Content>)
    | DictContent(members: map<string, Content>)
    | FloatContent(r: real)

  function Meaning(j: Json): Content
    decreases j
  {
    match j
    case Null => NullContent
    case Bool(b) => BoolContent(b)
    case Int(n) => IntContent(n)
    case Str(s) => StrContent(s)
    case Arr(items) => ListContent(MeaningItems(items))
    case Obj(ms) => DictContent(AsMap(MeaningMembers(ms)))
    case Float(r) => FloatContent(r)
  }

  function MeaningItems(items: seq<Json>): (r: seq<Content>)
    ensures |r| == |items|
    ensures forall i :: 0 <= i < |items| ==> r[i] == Meaning(items[i])
    decreases items
  {
    if items == [] then [] else [Meaning(items[0])] + MeaningItems(items[1..])
  }

  function MeaningMembers(ms: seq<Entry<Json>>): (r: seq<Entry<Content>>)
    ensures |r| == |ms|
    ensures forall i :: 0 <= i < |ms| ==> r[i] == Entry(ms[i].key, Meaning(ms[i].val))
    decreases ms
  {
    if ms == [] then [] else [Entry(ms[0].key, Meaning(ms[0].val))] + MeaningMembers(ms[1..])
  }

  // ---------- the sorted tree

  function Normal(j: Json): Json
    decreases j
  {
    match j
    case Arr(items) => Arr(NormalItems(items))
    case Obj(ms) => Obj(Sort(NormalMembers(ms)))
    case _ => j
  }

  function NormalItems(items: seq<Json>): (r: seq<Json>)
    ensures |r| == |items|
    ensures forall i :: 0 <= i < |items| ==> r[i] == Normal(items[i])
    decreases items
  {
    if items == [] then [] else [Normal(items[0])] + NormalItems(items[1..])
  }

  function NormalMembers(ms: seq<Entry<Json>>): (r: seq<Entry<Json>>)
    ensures |r| == |ms|
    ensures forall i :: 0 <= i < |ms| ==> r[i] == Entry(ms[i].key, Normal(ms[i].val))
    decreases ms
  {
    if ms == [] then [] else [Entry(ms[0].key, Normal(ms[0].val))] + NormalMembers(ms[1..])
  }
}
