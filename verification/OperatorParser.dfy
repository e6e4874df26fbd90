/** The operator's command language: eight forms of a subject line, over ASCII. */
module OperatorParser {
  import opened Wrappers
  import opened Numerals
  import opened Words
  import opened D = Decimals

  // ---------- UUIDs in their text form

  type Uuid = n: nat | n < Pow16(32) witness 0

  /** Eight, four, four, four and twelve hexadecimal digits, joined by hyphens. */
  predicate IsUuid(s: string) {
    && |s| == 36 && s[8] == '-' && s[13] == '-' && s[18] == '-' && s[23] == '-'
    && AllHex(HexDigits(s))
  }

  function HexDigits(s: string): (h: string)
    requires |s| == 36
    ensures |h| == 32
  {
    s[..8] + s[9..13] + s[14..18] + s[19..23] + s[24..]
  }

  function Hyphenated(h: string): (s: string)
    requires |h| == 32
    ensures |s| == 36
  {
    h[..8] + "-" + h[8..12] + "-" + h[12..16] + "-" + h[16..20] + "-" + h[20..]
  }

  function UuidValue(s: string): Uuid
    requires IsUuid(s)
  {
    HexValue(HexDigits(s))
  }

  function UuidText(id: Uuid): (s: string)
    ensures |s| == 36
  {
    Hyphenated(HexText(id, 32))
  }

  lemma HyphenatedDigits(h: string)
    requires |h| == 32
    ensures HexDigits(Hyphenated(h)) == h
    ensures AllHex(h) ==> IsUuid(Hyphenated(h))
  {
    var s := Hyphenated(h);
    assert s[..8] == h[..8] && s[9..13] == h[8..12] && s[14..18] == h[12..16] && s[19..23] == h[16..20]
           && s[24..] == h[20..];
    assert h == h[..8] + h[8..12] + h[12..16] + h[16..20] + h[20..];
  }

  lemma DigitsHyphenated(s: string)
    requires IsUuid(s)
    ensures Hyphenated(Lower(HexDigits(s))) == Lower(s)
  {
    var l := Lower(HexDigits(s));
    forall i | 0 <= i < 36 ensures Hyphenated(l)[i] == Lower(s)[i] {
      HyphenatedAt(l, i);
      if i !in {8, 13, 18, 23} {
        HexDigitsAt(s, i);
      }
    }
  }

  /** Which hexadecimal digit stands at position `i` of the text form. */
  function DigitIndex(i: nat): (k: nat)
    requires i < 36 && i !in {8, 13, 18, 23}
    ensures k < 32
  {
    if i < 8 then i else if i < 13 then i - 1 else if i < 18 then i - 2 else if i < 23 then i - 3 else i - 4
  }

  lemma HyphenatedAt(h: string, i: nat)
    requires |h| == 32 && i < 36
    ensures Hyphenated(h)[i] == if i in {8, 13, 18, 23} then '-' else h[DigitIndex(i)]
  {
  }

  lemma HexDigitsAt(s: string, i: nat)
    requires |s| == 36 && i < 36 && i !in {8, 13, 18, 23}
    ensures HexDigits(s)[DigitIndex(i)] == s[i]
  {
  }

  /**
   * The recogniser accepts exactly the spellings of the 128-bit values, in either letter case, and reads their value.
   */
  lemma UuidSpelling(s: string, id: Uuid)
    ensures IsUuid(s) && UuidValue(s) == id <==> Lower(s) == UuidText(id)
  {
    HyphenatedDigits(HexText(id, 32));
    HexValueOfText(id, 32);
    if IsUuid(s) && UuidValue(s) == id {
      HexTextOfValue(HexDigits(s));
      DigitsHyphenated(s);
    }
    if Lower(s) == UuidText(id) {
      LowerUuid(s, UuidText(id));
      HexTextOfValue(HexDigits(s));
      HexValueCase(HexDigits(s), HexDigits(UuidText(id)));
    }
  }

  lemma LowerUuid(s: string, t: string)
    requires Lower(s) == t && IsUuid(t)
    ensures IsUuid(s) && Lower(HexDigits(s)) == HexDigits(t)
  {
    assert |s| == 36 && forall i :: 0 <= i < 36 ==> LowerChar(s[i]) == t[i];
    var h, g := HexDigits(s), HexDigits(t);
    forall i | 0 <= i < 32 ensures LowerChar(h[i]) == g[i] && IsHex(h[i]) {
      assert IsHex(g[i]);
    }
  }

  lemma {:induction false} HexValueCase(a: string, b: string)
    requires AllHex(a) && AllHex(b) && Lower(a) == b
    ensures HexValue(a) == HexValue(b)
  {
    if a == [] {
    } else {
      var i := |a| - 1;
      assert |b| == |a|;
      assert LowerChar(a[i]) == b[i];
      assert Lower(a[..i]) == b[..i];
      HexValueCase(a[..i], b[..i]);
    }
  }

  // ---------- commands

  datatype Command =
    | Approve(id: Uuid)
    | RejectProposal(id: Uuid)
    | Continue
    | PauseAll
    | KillChild(id: Uuid)
    | KillAll
    | Resume(id: Uuid)
    | EmergencyTransfer(amount: Decimal)

  const AMOUNT_PLACES := 2
  const DIRECTION := "reserve->operating"
  const APPROVE := "APPROVE"
  const REJECT := "REJECT"
  const CONTINUE := "CONTINUE"
  const PAUSE := "PAUSE"
  const KILL := "KILL"
  const ALL := "ALL"
  const RESUME := "RESUME"
  const TRANSFER := "EMERGENCY_TRANSFER"

  /** Why a subject is answered with a form letter. */
  datatype Reason =
    | EmptySubject
    | RequiresOneUuid(verb: string)
    | TakesNoArguments(verb: string)
    | KillAllOrOneUuid
    | TransferArguments
    | TransferDirection
    | TransferAmount
    | UnknownVerb(verb: string)

  datatype Reading = Accepted(command: Command) | Refused(reason: Reason)

  datatype Verb = ApproveVerb | RejectVerb | ContinueVerb | PauseVerb | KillVerb | ResumeVerb | TransferVerb | OtherVerb

  function VerbOf(s: string): Verb {
    if s == APPROVE then ApproveVerb
    else if s == REJECT then RejectVerb
    else if s == CONTINUE then ContinueVerb
    else if s == PAUSE then PauseVerb
    else if s == KILL then KillVerb
    else if s == RESUME then ResumeVerb
    else if s == TRANSFER then TransferVerb
    else OtherVerb
  }

  /** The identifier of a two-token subject, if its second token is one. */
  function OneId(parts: seq<string>): Option<Uuid> {
    if |parts| != 2 || !IsUuid(parts[1]) then None else Some(UuidValue(parts[1]))
  }

  /** The branches of parse on the tokens of a subject. */
  function ParseTokens(parts: seq<string>): Reading {
    if parts == [] then Refused(EmptySubject) else
      match VerbOf(Upper(parts[0]))
      case ApproveVerb =>
        (match OneId(parts)
         case Some(id) => Accepted(Approve(id))
         case None => Refused(RequiresOneUuid(APPROVE)))
      case RejectVerb =>
        (match OneId(parts)
         case Some(id) => Accepted(RejectProposal(id))
         case None => Refused(RequiresOneUuid(REJECT)))
      case ContinueVerb => if |parts| != 1 then Refused(TakesNoArguments(CONTINUE)) else Accepted(Continue)
      case PauseVerb => if |parts| != 1 then Refused(TakesNoArguments(PAUSE)) else Accepted(PauseAll)
      case KillVerb =>
        if |parts| == 2 && Upper(parts[1]) == ALL then Accepted(KillAll)
        else (match OneId(parts) case Some(id) => Accepted(KillChild(id)) case None => Refused(KillAllOrOneUuid))
      case ResumeVerb =>
        (match OneId(parts)
         case Some(id) => Accepted(Resume(id))
         case None => Refused(RequiresOneUuid(RESUME)))
      case TransferVerb =>
        if |parts| != 3 then Refused(TransferArguments)
        else if Lower(parts[2]) != DIRECTION then Refused(TransferDirection)
        else (match ReadUnsigned(parts[1], AMOUNT_PLACES)
              case None => Refused(TransferAmount)
              case Some(d) => Accepted(EmergencyTransfer(d)))
      case OtherVerb => Refused(UnknownVerb(Upper(parts[0])))
  }

  datatype ParseResult =
    | Message(command: Command, bodyExcerpt: string, rawHash: string)
    | FormLetter(reason: Reason, rawHash: string)

  const EXCERPT := 500

  function Excerpt(c: Command, body: string): string {
    if c.RejectProposal? || c.EmergencyTransfer? then (if |body| > EXCERPT then body[..EXCERPT] else body) else ""
  }

  /** parse(subject, body); `hash` is SHA-256 of the UTF-8 text as hex. */
  function Parse(hash: string -> string, subject: string, body: string): ParseResult {
    var raw := hash(Strip(subject + "\n" + body));
    var s := Strip(subject);
    if s == [] then FormLetter(EmptySubject, raw)
    else match ParseTokens(Split(s))
      case Refused(reason) => FormLetter(reason, raw)
      case Accepted(c) => Message(c, Excerpt(c, body), raw)
  }

  // ---------- the grammar: how each command is spelled

  function Zeros(n: nat): string {
    seq(n, _ => '0')
  }

  /** An amount in cents or dollars, with any number of superfluous zeros in front. */
  ghost predicate SpellsAmount(s: string, d: Decimal) {
    d.coeff >= 0 && d.places <= 2 && exists k: nat :: s == Zeros(k) + Text(d)
  }

  predicate SpellsId(parts: seq<string>, verb: string, id: Uuid) {
    |parts| == 2 && Upper(parts[0]) == verb && Lower(parts[1]) == UuidText(id)
  }

  /** The eight rules. */
  ghost predicate Spells(parts: seq<string>, c: Command) {
    match c
    case Approve(id) => SpellsId(parts, "APPROVE", id)
    case RejectProposal(id) => SpellsId(parts, "REJECT", id)
    case Continue => |parts| == 1 && Upper(parts[0]) == "CONTINUE"
    case PauseAll => |parts| == 1 && Upper(parts[0]) == "PAUSE"
    case KillChild(id) => SpellsId(parts, "KILL", id)
    case KillAll => |parts| == 2 && Upper(parts[0]) == "KILL" && Upper(parts[1]) == "ALL"
    case Resume(id) => SpellsId(parts, "RESUME", id)
    case EmergencyTransfer(d) =>
      && |parts| == 3 && Upper(parts[0]) == "EMERGENCY_TRANSFER"
      && SpellsAmount(parts[1], d) && Lower(parts[2]) == "reserve->operating"
  }
}
