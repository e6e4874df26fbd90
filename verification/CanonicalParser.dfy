/** An inverse of the canonical encoder: a parser, and the proof that it recovers the sorted tree. */
module CanonicalParser {
  import opened Numerals
  import opened SortedEntries
  import opened CanonicalJson

  datatype Parsed<T> = NoParse | Parsed(value: T, rest: string)

  predicate StartsWith(s: string, prefix: string) {
    |prefix| <= |s| && s[..|prefix|] == prefix
  }

  function ParseInt(s: string): (p: Parsed<Json>)
    ensures p.Parsed? ==> |p.rest| < |s|
  {
    var body := if StartsWith(s, "-") then s[1..] else s;
    var n := DigitRun(body);
    if n == 0 then NoParse
    else
      var magnitude: int := DecValue(body[..n]);
      Parsed(Int(if StartsWith(s, "-") then -magnitude else magnitude), body[n..])
  }

  /** The character written as four hexadecimal digits. */
  function ParseUnicode(s: string): (p: Parsed<char>)
    ensures p.Parsed? ==> |p.rest| < |s|
  {
    if |s| < 4 || !AllHex(s[..4]) then NoParse else
      var n := HexValue(s[..4]);
      if 0xD800 <= n then NoParse else Parsed(n as char, s[4..])
  }

  /** One possibly escaped character. */
  function ParseChar(s: string): (p: Parsed<char>)
    ensures p.Parsed? ==> |p.rest| < |s|
  {
    if s == [] || s[0] == QUOTE then NoParse
    else if s[0] != BACKSLASH then Parsed(s[0], s[1..])
    else if |s| == 1 then NoParse
    else match s[1]
      case '\"' => Parsed(QUOTE, s[2..])
      case '\\' => Parsed(BACKSLASH, s[2..])
      case 'b' => Parsed(8 as char, s[2..])
      case 'f' => Parsed(12 as char, s[2..])
      case 'n' => Parsed(10 as char, s[2..])
      case 'r' => Parsed(13 as char, s[2..])
      case 't' => Parsed(9 as char, s[2..])
      case 'u' => ParseUnicode(s[2..])
      case _ => NoParse
  }

  /** The rest of a string after its opening quote, up to and including the closing one. */
  function ParseString(s: string): (p: Parsed<string>)
    ensures p.Parsed? ==> |p.rest| < |s|
  {
    if StartsWith(s, [QUOTE]) then Parsed("", s[1..]) else
      match ParseChar(s)
      case NoParse => NoParse
      case Parsed(c, rest) =>
        match ParseString(rest)
        case NoParse => NoParse
        case Parsed(cs, end) => Parsed([c] + cs, end)
  }

  function ParseKeyword(s: string, word: string, j: Json): (p: Parsed<Json>)
    requires word != []
    ensures p.Parsed? ==> |p.rest| < |s|
  {
    if StartsWith(s, word) then Parsed(j, s[|word|..]) else NoParse
  }

  function ParseStringValue(s: string): (p: Parsed<Json>)
    ensures p.Parsed? ==> |p.rest| < |s|
  {
    match ParseString(s)
    case NoParse => NoParse
    case Parsed(cs, rest) => Parsed(Str(cs), rest)
  }

  function ParseValue(s: string): (p: Parsed<Json>)
    ensures p.Parsed? ==> |p.rest| < |s|
    decreases |s|, 0
  {
    if s == [] then NoParse
    else if s[0] == 'n' then ParseKeyword(s, "null", Null)
    else if s[0] == 't' then ParseKeyword(s, "true", Bool(true))
    else if s[0] == 'f' then ParseKeyword(s, "false", Bool(false))
    else if s[0] == QUOTE then ParseStringValue(s[1..])
    else if s[0] == '[' then ParseArray(s[1..])
    else if s[0] == '{' then ParseObject(s[1..])
    else ParseInt(s)
  }

  /** The rest of an array after its opening bracket. */
  function ParseArray(s: string): (p: Parsed<Json>)
    ensures p.Parsed? ==> |p.rest| < |s|
    decreases |s|, 2
  {
    if s != [] && s[0] == ']' then Parsed(Arr([]), s[1..]) else
      match ParseItems(s)
      case NoParse => NoParse
      case Parsed(items, rest) => Parsed(Arr(items), rest)
  }

  function ParseItems(s: string): (p: Parsed<seq<Json>>)
    ensures p.Parsed? ==> |p.rest| < |s|
    decreases |s|, 1
  {
    match ParseValue(s)
    case NoParse => NoParse
    case Parsed(v, rest) =>
      if rest == [] then NoParse
      else if rest[0] == ']' then Parsed([v], rest[1..])
      else if rest[0] != ',' then NoParse
      else
        match ParseItems(rest[1..])
        case NoParse => NoParse
        case Parsed(vs, end) => Parsed([v] + vs, end)
  }

  /** The rest of an object after its opening brace. */
  function ParseObject(s: string): (p: Parsed<Json>)
    ensures p.Parsed? ==> |p.rest| < |s|
    decreases |s|, 2
  {
    if s != [] && s[0] == '}' then Parsed(Obj([]), s[1..]) else
      match ParseMembers(s)
      case NoParse => NoParse
      case Parsed(ms, rest) => Parsed(Obj(ms), rest)
  }

  function ParseMember(s: string): (p: Parsed<Entry<Json>>)
    ensures p.Parsed? ==> |p.rest| < |s|
    decreases |s|, 0
  {
    if s == [] || s[0] != QUOTE then NoParse else
      match ParseString(s[1..])
      case NoParse => NoParse
      case Parsed(k, rest) =>
        if rest == [] || rest[0] != ':' then NoParse else
          match ParseValue(rest[1..])
          case NoParse => NoParse
          case Parsed(v, end) => Parsed(Entry(k, v), end)
  }

  function ParseMembers(s: string): (p: Parsed<seq<Entry<Json>>>)
    ensures p.Parsed? ==> |p.rest| < |s|
    decreases |s|, 1
  {
    match ParseMember(s)
    case NoParse => NoParse
    case Parsed(m, rest) =>
      if rest == [] then NoParse
      else if rest[0] == '}' then Parsed([m], rest[1..])
      else if rest[0] != ',' then NoParse
      else
        match ParseMembers(rest[1..])
        case NoParse => NoParse
        case Parsed(ms, end) => Parsed([m] + ms, end)
  }

  function Parse(text: string): Parsed<Json> {
    match ParseValue(text)
    case NoParse => NoParse
    case Parsed(j, rest) => if rest == "\n" then Parsed(j, "") else NoParse
  }

  // ---------- the plain printer: members in the order they are listed

  function Print(j: Json): string
    decreases j
  {
    match j
    case Null => "null"
    case Bool(b) => if b then "true" else "false"
    case Int(n) => IntText(n)
    case Str(s) => Quote(s)
    case Arr(items) => "[" + JoinItems(PrintItems(items)) + "]"
    case Obj(ms) => "{" + JoinMembers(PrintMembers(ms)) + "}"
    case Float(_) => ""
  }

  function PrintItems(items: seq<Json>): (texts: seq<string>)
    ensures |texts| == |items|
    ensures forall i :: 0 <= i < |items| ==> texts[i] == Print(items[i])
    decreases items
  {
    if items == [] then [] else [Print(items[0])] + PrintItems(items[1..])
  }

  function PrintMembers(ms: seq<Entry<Json>>): (texts: seq<Entry<string>>)
    ensures |texts| == |ms|
    ensures forall i :: 0 <= i < |ms| ==> texts[i] == Entry(ms[i].key, Print(ms[i].val))
    decreases ms
  {
    if ms == [] then [] else [Entry(ms[0].key, Print(ms[0].val))] + PrintMembers(ms[1..])
  }

  // ---------- printing in front of a given rest, so that what the parser meets next is always at hand

  function PrintOnto(j: Json, rest: string): string
    decreases j
  {
    match j
    case Arr(items) => ['['] + (if items == [] then [']'] + rest else ItemsOnto(items, rest))
    case Obj(ms) => ['{'] + (if ms == [] then ['}'] + rest else MembersOnto(ms, rest))
    case _ => Print(j) + rest
  }

  function ItemsOnto(items: seq<Json>, rest: string): string
    requires items != []
    decreases items
  {
    PrintOnto(items[0], if |items| == 1 then [']'] + rest else [','] + ItemsOnto(items[1..], rest))
  }

  function MemberOnto(m: Entry<Json>, rest: string): string
    decreases m
  {
    [QUOTE] + (Escape(m.key) + [QUOTE] + ([':'] + PrintOnto(m.val, rest)))
  }

  function MembersOnto(ms: seq<Entry<Json>>, rest: string): string
    requires ms != []
    decreases ms
  {
    MemberOnto(ms[0], if |ms| == 1 then ['}'] + rest else [','] + MembersOnto(ms[1..], rest))
  }

  lemma {:induction false} PrintOntoIsPrint(j: Json, rest: string)
    ensures PrintOnto(j, rest) == Print(j) + rest
    decreases j, 0
  {
    match j
    case Arr(items) =>
      if items != [] {
        ItemsOntoIsJoin(items, rest);
      }
    case Obj(ms) =>
      if ms != [] {
        MembersOntoIsJoin(ms, rest);
      }
    case _ =>
  }

  lemma Regroup(head: string, tail: string, close: string, rest: string)
    ensures head + ([','] + (tail + close + rest)) == head + "," + tail + close + rest
  {
  }

  lemma {:induction false} ItemsOntoIsJoin(items: seq<Json>, rest: string)
    requires items != []
    ensures ItemsOnto(items, rest) == JoinItems(PrintItems(items)) + "]" + rest
    decreases items, 1
  {
    PrintOntoIsPrint(items[0], if |items| == 1 then [']'] + rest else [','] + ItemsOnto(items[1..], rest));
    if |items| <= 1 {
    } else {
      ItemsOntoIsJoin(items[1..], rest);
      assert PrintItems(items)[1..] == PrintItems(items[1..]);
      Regroup(Print(items[0]), JoinItems(PrintItems(items[1..])), "]", rest);
    }
  }

  lemma {:induction false} MembersOntoIsJoin(ms: seq<Entry<Json>>, rest: string)
    requires ms != []
    ensures MembersOnto(ms, rest) == JoinMembers(PrintMembers(ms)) + "}" + rest
    decreases ms, 1
  {
    var after := if |ms| == 1 then ['}'] + rest else [','] + MembersOnto(ms[1..], rest);
    PrintOntoIsPrint(ms[0].val, after);
    MemberOntoIsText(ms[0], after);
    if |ms| <= 1 {
    } else {
      MembersOntoIsJoin(ms[1..], rest);
      assert PrintMembers(ms)[1..] == PrintMembers(ms[1..]);
      Regroup(MemberText(PrintMembers(ms)[0]), JoinMembers(PrintMembers(ms[1..])), "}", rest);
    }
  }

  lemma MemberOntoIsText(m: Entry<Json>, rest: string)
    requires PrintOnto(m.val, rest) == Print(m.val) + rest
    ensures MemberOnto(m, rest) == MemberText(Entry(m.key, Print(m.val))) + rest
  {
  }

  // ---------- reading back what was printed

  lemma ParseEscapedChar(c: char, rest: string)
    ensures EscapeChar(c)[0] != QUOTE
    ensures ParseChar(EscapeChar(c) + rest) == Parsed(c, rest)
  {
    var t := EscapeChar(c) + rest;
    var n := c as int;
    if c == QUOTE || c == BACKSLASH || n == 8 || n == 12 || n == 10 || n == 13 || n == 9 {
      assert t[2..] == rest;
    } else if n < 0x20 {
      var h := HexText(n, 4);
      assert t[2..] == h + rest;
      assert (h + rest)[..4] == h && (h + rest)[4..] == rest;
      assert Pow16(4) == 16 * Pow16(3) && Pow16(3) == 16 * Pow16(2) && Pow16(2) == 16 * Pow16(1);
      HexValueOfText(n, 4);
    } else {
      assert t[1..] == rest;
    }
  }

  /**
   * Which characters are escaped, and how: only the quote, the backslash and the controls below the space, five of them
   * by a letter and the rest by four hexadecimal digits in lower case. Every other character stands for itself.
   */
  lemma EscapeSpelling(c: char)
    ensures EscapeChar(c) == [c] <==> c != '\"' && c != '\\' && c as int >= 32
    ensures c in {'\"', '\\'} ==> EscapeChar(c) == ['\\', c]
    ensures c as int < 32 ==>
              EscapeChar(c) == (match c as int
                                case 8 => "\\b" case 9 => "\\t" case 10 => "\\n" case 12 => "\\f" case 13 => "\\r"
                                case n => "\\u00" + [if n < 16 then '0' else '1'] + ["0123456789abcdef"[n % 16]])
  {
    if c as int < 32 {
      HexOfControl(c as int);
    }
  }

  lemma HexOfControl(n: nat)
    requires n < 32
    ensures HexText(n, 4) == "00" + [if n < 16 then '0' else '1'] + ["0123456789abcdef"[n % 16]]
  {
    HexStep(n, 3);
    HexOfBit(n / 16);
    HexDigitsInOrder(n % 16);
  }

  lemma HexStep(n: nat, width: nat)
    ensures HexText(n, width + 1) == HexText(n / 16, width) + [HexChar(n % 16)]
  {
  }

  lemma HexOfBit(b: nat)
    requires b < 2
    ensures HexText(b, 3) == "00" + [if b == 0 then '0' else '1']
  {
    HexStep(b, 2);
    HexStep(0, 1);
    HexStep(0, 0);
    HexDigitsInOrder(b);
    HexDigitsInOrder(0);
  }

  lemma HexDigitsInOrder(d: nat)
    requires d < 16
    ensures HexChar(d) == "0123456789abcdef"[d]
  {
  }

  lemma ParseStringStep(t: string, c: char, tail: string, cs: string, rest: string)
    requires t != [] && t[0] != QUOTE && ParseChar(t) == Parsed(c, tail) && ParseString(tail) == Parsed(cs, rest)
    ensures ParseString(t) == Parsed([c] + cs, rest)
  {
  }

  lemma {:induction false} ParseEscapedString(s: string, rest: string)
    ensures ParseString(Escape(s) + [QUOTE] + rest) == Parsed(s, rest)
  {
    var t := Escape(s) + [QUOTE] + rest;
    if s == [] {
      assert t == [QUOTE] + rest;
    } else {
      var tail := Escape(s[1..]) + [QUOTE] + rest;
      assert t == EscapeChar(s[0]) + tail;
      ParseEscapedChar(s[0], tail);
      ParseEscapedString(s[1..], rest);
      ParseStringStep(t, s[0], tail, s[1..], rest);
      assert s == [s[0]] + s[1..];
    }
  }

  lemma DigitsThenRest(d: string, rest: string)
    requires AllDigits(d) && d != [] && (rest == [] || !IsDigit(rest[0]))
    ensures var t := d + rest; t[0] == d[0] && DigitRun(t) == |d| && t[..|d|] == d && t[|d|..] == rest
  {
    DigitRunOf(d, rest);
  }

  lemma ParseNegative(n: int, d: string, rest: string)
    requires AllDigits(d) && d != [] && DecValue(d) == -n && (rest == [] || !IsDigit(rest[0]))
    ensures ParseInt("-" + (d + rest)) == Parsed(Int(n), rest)
  {
    var s := "-" + (d + rest);
    assert s[..1] == "-" && s[1..] == d + rest;
    assert StartsWith(s, "-");
    DigitsThenRest(d, rest);
  }

  lemma ParseNonNegative(n: int, d: string, rest: string)
    requires AllDigits(d) && d != [] && DecValue(d) == n && (rest == [] || !IsDigit(rest[0]))
    ensures ParseInt(d + rest) == Parsed(Int(n), rest)
  {
    DigitsThenRest(d, rest);
  }

  lemma ParsePrintedNegative(n: int, rest: string)
    requires n < 0 && (rest == [] || !IsDigit(rest[0]))
    ensures ParseInt("-" + (DecText(-n) + rest)) == Parsed(Int(n), rest)
  {
    DecValueOfText(-n);
    ParseNegative(n, DecText(-n), rest);
  }

  lemma ParsePrintedInt(n: int, rest: string)
    requires rest == [] || !IsDigit(rest[0])
    ensures ParseInt(IntText(n) + rest) == Parsed(Int(n), rest)
  {
    if n < 0 {
      assert IntText(n) + rest == "-" + (DecText(-n) + rest);
      ParsePrintedNegative(n, rest);
    } else {
      assert IntText(n) == DecText(n);
      DecValueOfText(n);
      ParseNonNegative(n, DecText(n), rest);
    }
  }

  /** What may follow a value: nothing that could extend an integer. */
  predicate Boundary(rest: string) {
    rest == [] || !IsDigit(rest[0])
  }

  lemma ParsePrintedScalar(j: Json, rest: string)
    requires Boundary(rest) && !j.Arr? && !j.Obj? && !j.Float?
    ensures ParseValue(Print(j) + rest) == Parsed(j, rest)
  {
    match j
    case Null => KeywordThenRest("null", rest, Null);
    case Bool(b) =>
      if b {
        KeywordThenRest("true", rest, j);
      } else {
        KeywordThenRest("false", rest, j);
      }
    case Int(n) => ParseIntValue(n, rest);
    case Str(s) => ParseQuoted(s, rest);
  }

  lemma KeywordThenRest(word: string, rest: string, j: Json)
    requires word != []
    ensures (word + rest)[0] == word[0] && ParseKeyword(word + rest, word, j) == Parsed(j, rest)
  {
    assert (word + rest)[..|word|] == word && (word + rest)[|word|..] == rest;
  }

  lemma ParseIntValue(n: int, rest: string)
    requires Boundary(rest)
    ensures ParseValue(IntText(n) + rest) == Parsed(Int(n), rest)
  {
    var t := IntText(n) + rest;
    assert t[0] == IntText(n)[0];
    assert ParseValue(t) == ParseInt(t);
    ParsePrintedInt(n, rest);
  }

  lemma ParseQuoted(s: string, rest: string)
    ensures ParseValue(Quote(s) + rest) == Parsed(Str(s), rest)
  {
    var t := Escape(s) + [QUOTE] + rest;
    assert Quote(s) + rest == [QUOTE] + t && ([QUOTE] + t)[1..] == t;
    ParseEscapedString(s, rest);
  }

  /** Parsing undoes printing, whatever follows the value. */
  lemma {:induction false} ParsePrinted(j: Json, rest: string)
    requires FloatFree(j) && Boundary(rest)
    ensures ParseValue(PrintOnto(j, rest)) == Parsed(j, rest)
    decreases j, 0
  {
    match j
    case Arr(items) => ParsePrintedArray(items, rest);
    case Obj(ms) => ParsePrintedObject(ms, rest);
    case _ => ParsePrintedScalar(j, rest);
  }

  lemma {:induction false} ParsePrintedArray(items: seq<Json>, rest: string)
    requires forall i :: 0 <= i < |items| ==> FloatFree(items[i])
    ensures ParseValue(PrintOnto(Arr(items), rest)) == Parsed(Arr(items), rest)
    decreases items, 2
  {
    if items == [] {
      assert PrintOnto(Arr(items), rest)[1..] == [']'] + rest;
    } else {
      ParsePrintedItems(items, rest);
      ItemsOntoStart(items, rest);
      assert PrintOnto(Arr(items), rest)[1..] == ItemsOnto(items, rest);
    }
  }

  lemma ItemsOntoStart(items: seq<Json>, rest: string)
    requires items != [] && FloatFree(items[0])
    ensures ItemsOnto(items, rest) != [] && ItemsOnto(items, rest)[0] != ']'
  {
    var after := if |items| == 1 then [']'] + rest else [','] + ItemsOnto(items[1..], rest);
    PrintOntoIsPrint(items[0], after);
    assert Print(items[0])[0] != ']';
  }

  lemma {:induction false} ParsePrintedItems(items: seq<Json>, rest: string)
    requires items != [] && forall i :: 0 <= i < |items| ==> FloatFree(items[i])
    ensures ParseItems(ItemsOnto(items, rest)) == Parsed(items, rest)
    decreases items, 1
  {
    if |items| == 1 {
      ParsePrinted(items[0], [']'] + rest);
      assert items == [items[0]];
    } else {
      ParsePrinted(items[0], [','] + ItemsOnto(items[1..], rest));
      ParsePrintedItems(items[1..], rest);
      assert items == [items[0]] + items[1..];
    }
  }

  lemma {:induction false} ParsePrintedObject(ms: seq<Entry<Json>>, rest: string)
    requires forall i :: 0 <= i < |ms| ==> FloatFree(ms[i].val)
    ensures ParseValue(PrintOnto(Obj(ms), rest)) == Parsed(Obj(ms), rest)
    decreases ms, 2
  {
    var t := PrintOnto(Obj(ms), rest);
    assert t[0] == '{' && ParseValue(t) == ParseObject(t[1..]);
    if ms == [] {
      assert t[1..] == ['}'] + rest && (['}'] + rest)[1..] == rest;
    } else {
      ParsePrintedMembers(ms, rest);
      assert MembersOnto(ms, rest)[0] == QUOTE;
      assert t[1..] == MembersOnto(ms, rest);
    }
  }

  lemma {:induction false} ParsePrintedMember(m: Entry<Json>, rest: string)
    requires FloatFree(m.val) && Boundary(rest)
    ensures ParseMember(MemberOnto(m, rest)) == Parsed(m, rest)
    decreases m, 1
  {
    var tail := [':'] + PrintOnto(m.val, rest);
    ParseEscapedString(m.key, tail);
    assert MemberOnto(m, rest)[1..] == Escape(m.key) + [QUOTE] + tail;
    ParsePrinted(m.val, rest);
  }

  lemma {:induction false} ParsePrintedMembers(ms: seq<Entry<Json>>, rest: string)
    requires ms != [] && forall i :: 0 <= i < |ms| ==> FloatFree(ms[i].val)
    ensures ParseMembers(MembersOnto(ms, rest)) == Parsed(ms, rest)
    decreases ms, 1
  {
    if |ms| == 1 {
      assert MembersOnto(ms, rest) == MemberOnto(ms[0], ['}'] + rest);
      ParsePrintedMember(ms[0], ['}'] + rest);
      ParseMembersEnd(MembersOnto(ms, rest), ms[0], rest);
      assert ms == [ms[0]];
    } else {
      var more := MembersOnto(ms[1..], rest);
      assert MembersOnto(ms, rest) == MemberOnto(ms[0], [','] + more);
      ParsePrintedMember(ms[0], [','] + more);
      ParsePrintedMembers(ms[1..], rest);
      ParseMembersStep(MembersOnto(ms, rest), ms[0], more, ms[1..], rest);
      assert ms == [ms[0]] + ms[1..];
    }
  }

  lemma ParseMembersEnd(t: string, m: Entry<Json>, rest: string)
    requires ParseMember(t) == Parsed(m, ['}'] + rest)
    ensures ParseMembers(t) == Parsed([m], rest)
  {
    assert (['}'] + rest)[1..] == rest;
  }

  lemma ParseMembersStep(t: string, m: Entry<Json>, more: string, ms: seq<Entry<Json>>, rest: string)
    requires ParseMember(t) == Parsed(m, [','] + more) && ParseMembers(more) == Parsed(ms, rest)
    ensures ParseMembers(t) == Parsed([m] + ms, rest)
  {
    assert ([','] + more)[1..] == more;
  }
}
