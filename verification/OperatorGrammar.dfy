/** The parser and the grammar agree, and printing a command and parsing it gives the command back. */
module OperatorGrammar {
  import opened Wrappers
  import opened Numerals
  import opened Words
  import opened Decimals
  import opened OperatorParser

  // ---------- amounts

  lemma {:induction false} LeadingZeros(w: string) returns (k: nat)
    requires AllDigits(w) && w != []
    ensures k < |w| && w == Zeros(k) + w[k..] && !SuperfluousZero(w[k..])
    ensures DecValue(w[k..]) == DecValue(w)
  {
    if SuperfluousZero(w) {
      var n := LeadingZeros(w[1..]);
      k := n + 1;
      assert w == ['0'] + w[1..] && w[1..][n..] == w[k..];
      ZerosCons(n, w[k..]);
      ZeroInFront(w[1..]);
    } else {
      k := 0;
      assert w[0..] == w;
    }
  }

  lemma ZerosCons(n: nat, rest: string)
    ensures Zeros(n + 1) + rest == ['0'] + (Zeros(n) + rest)
  {
  }

  lemma {:induction false} ZeroInFront(w: string)
    requires AllDigits(w)
    ensures AllDigits(['0'] + w) && DecValue(['0'] + w) == DecValue(w)
  {
    var z := ['0'] + w;
    if w != [] {
      ZeroInFront(w[..|w| - 1]);
      assert z[..|z| - 1] == ['0'] + w[..|w| - 1];
    } else {
      assert z[..0] == [];
    }
  }

  lemma {:induction false} ZerosInFront(k: nat, w: string)
    requires AllDigits(w)
    ensures AllDigits(Zeros(k) + w) && DecValue(Zeros(k) + w) == DecValue(w)
  {
    if k == 0 {
      assert Zeros(0) + w == w;
    } else {
      ZerosInFront(k - 1, w);
      ZeroInFront(Zeros(k - 1) + w);
      assert Zeros(k) + w == ['0'] + (Zeros(k - 1) + w);
    }
  }

  lemma {:induction false} ZerosRun(k: nat, s: string)
    ensures DigitRun(Zeros(k) + s) == k + DigitRun(s)
  {
    if k == 0 {
      assert Zeros(0) + s == s;
    } else {
      ZerosRun(k - 1, s);
      assert (Zeros(k) + s)[1..] == Zeros(k - 1) + s;
    }
  }

  /** Superfluous zeros in front do not change what is read. */
  lemma ReadIgnoresZeros(k: nat, s: string, maxPlaces: nat)
    requires maxPlaces <= MAX_PLACES && DigitRun(s) > 0
    ensures ReadUnsigned(Zeros(k) + s, maxPlaces) == ReadUnsigned(s, maxPlaces)
  {
    var n := DigitRun(s);
    ZerosParts(k, s);
    PartsIgnoreZeros(k, s[..n], s[n..], maxPlaces);
  }

  lemma ZerosParts(k: nat, s: string)
    ensures var z, n := Zeros(k) + s, DigitRun(s);
            DigitRun(z) == k + n && z[..k + n] == Zeros(k) + s[..n] && z[k + n..] == s[n..]
  {
    ZerosRun(k, s);
  }

  lemma PartsIgnoreZeros(k: nat, whole: string, tail: string, maxPlaces: nat)
    requires AllDigits(whole) && whole != [] && maxPlaces <= MAX_PLACES
    ensures AllDigits(Zeros(k) + whole)
    ensures ReadParts(Zeros(k) + whole, tail, maxPlaces) == ReadParts(whole, tail, maxPlaces)
  {
    ZerosInFront(k, whole);
    if tail != [] && AllDigits(tail[1..]) {
      assert AllDigits(whole + tail[1..]);
      ZerosInFront(k, whole + tail[1..]);
      assert (Zeros(k) + whole) + tail[1..] == Zeros(k) + (whole + tail[1..]);
    }
  }

  /** What is left of an accepted amount without its superfluous zeros is the text of the amount. */
  lemma AmountIsZerosAndText(s: string, maxPlaces: nat) returns (k: nat)
    requires maxPlaces <= MAX_PLACES && ReadUnsigned(s, maxPlaces).Some?
    ensures s == Zeros(k) + Text(ReadUnsigned(s, maxPlaces).value)
  {
    var whole, tail := s[..DigitRun(s)], s[DigitRun(s)..];
    k := LeadingZeros(whole);
    var r := whole[k..] + tail;
    assert s == Zeros(k) + r by {
      assert s == whole + tail;
    }
    ZerosRun(k, r);
    ReadIgnoresZeros(k, r, maxPlaces);
    assert r[..|whole| - k] == whole[k..];
    TextOfRead(r, maxPlaces);
  }

  /** The amount recogniser accepts exactly the amounts with at most two places, under any superfluous zeros. */
  lemma AmountSpelling(s: string, d: Decimal)
    ensures ReadUnsigned(s, AMOUNT_PLACES) == Some(d) <==> SpellsAmount(s, d)
  {
    if ReadUnsigned(s, AMOUNT_PLACES) == Some(d) {
      var k := AmountIsZerosAndText(s, AMOUNT_PLACES);
    }
    if SpellsAmount(s, d) {
      var k: nat :| s == Zeros(k) + Text(d);
      ReadUnsignedOfText(d.coeff, d.places, AMOUNT_PLACES);
      ReadIgnoresZeros(k, Text(d), AMOUNT_PLACES);
    }
  }

  // ---------- the parser accepts exactly the grammar

  const VERBS := {APPROVE, REJECT, CONTINUE, PAUSE, KILL, RESUME, TRANSFER}

  /** The seven verbs are different words, so each is recognised as itself. */
  lemma VerbsRecognised(s: string)
    ensures VerbOf(s) == ApproveVerb <==> s == APPROVE
    ensures VerbOf(s) == RejectVerb <==> s == REJECT
    ensures VerbOf(s) == ContinueVerb <==> s == CONTINUE
    ensures VerbOf(s) == PauseVerb <==> s == PAUSE
    ensures VerbOf(s) == KillVerb <==> s == KILL
    ensures VerbOf(s) == ResumeVerb <==> s == RESUME
    ensures VerbOf(s) == TransferVerb <==> s == TRANSFER
    ensures VerbOf(s) == OtherVerb <==> s !in VERBS
  {
    assert |APPROVE| == 7 && |REJECT| == 6 && |CONTINUE| == 8 && |PAUSE| == 5 && |KILL| == 4 && |RESUME| == 6
           && |TRANSFER| == 18;
    assert REJECT[2] != RESUME[2];
  }

  lemma AllIsNoUuid(s: string)
    requires Upper(s) == ALL
    ensures !IsUuid(s)
  {
    assert |Upper(s)| == |s| && |ALL| == 3;
  }

  /** Whatever the parser accepts, the grammar spells. */
  lemma AcceptedIsSpelled(parts: seq<string>, c: Command)
    requires ParseTokens(parts) == Accepted(c)
    ensures Spells(parts, c)
  {
    VerbsRecognised(Upper(parts[0]));
    match c
    case Approve(id) => UuidSpelling(parts[1], id);
    case RejectProposal(id) => UuidSpelling(parts[1], id);
    case KillChild(id) => UuidSpelling(parts[1], id);
    case Resume(id) => UuidSpelling(parts[1], id);
    case EmergencyTransfer(d) => AmountSpelling(parts[1], d);
    case _ =>
  }

  /** Whatever the grammar spells, the parser accepts. */
  lemma SpelledIsAccepted(parts: seq<string>, c: Command)
    requires Spells(parts, c)
    ensures ParseTokens(parts) == Accepted(c)
  {
    VerbsRecognised(Upper(parts[0]));
    match c
    case Approve(id) => UuidSpelling(parts[1], id);
    case RejectProposal(id) => UuidSpelling(parts[1], id);
    case KillChild(id) =>
      UuidSpelling(parts[1], id);
      if Upper(parts[1]) == ALL {
        AllIsNoUuid(parts[1]);
      }
    case Resume(id) => UuidSpelling(parts[1], id);
    case EmergencyTransfer(d) => AmountSpelling(parts[1], d);
    case _ =>
  }

  /** Main result: on every token list, the parser yields a command exactly when the grammar spells it that way. */
  lemma ParserMeetsGrammar(parts: seq<string>, c: Command)
    ensures ParseTokens(parts) == Accepted(c) <==> Spells(parts, c)
  {
    if ParseTokens(parts) == Accepted(c) {
      AcceptedIsSpelled(parts, c);
    }
    if Spells(parts, c) {
      SpelledIsAccepted(parts, c);
    }
  }

  /** A subject is a command exactly when it is that command's tokens with whitespace around and between them. */
  lemma ParseAcceptsExactlyTheGrammar(hash: string -> string, subject: string, body: string, c: Command)
    ensures (Parse(hash, subject, body).Message? && Parse(hash, subject, body).command == c) <==>
              Spells(Split(subject), c)
  {
    SplitOfStrip(subject);
    ParserMeetsGrammar(Split(subject), c);
  }

  /** What each of the eight reasons says about the words of a refused subject. */
  ghost predicate ReasonFits(parts: seq<string>, reason: Reason) {
    var verb := if parts == [] then "" else Upper(parts[0]);
    && (reason == EmptySubject <==> parts == [])
    && (forall v :: reason == RequiresOneUuid(v) <==> parts != [] && verb == v && v in {APPROVE, REJECT, RESUME})
    && (forall v :: reason == TakesNoArguments(v) <==> parts != [] && verb == v && v in {CONTINUE, PAUSE})
    && (reason == KillAllOrOneUuid <==> parts != [] && verb == KILL)
    && (forall v :: reason == UnknownVerb(v) <==> parts != [] && verb == v && v !in VERBS)
    && (reason == TransferArguments <==> parts != [] && verb == TRANSFER && |parts| != 3)
    && (reason == TransferDirection <==> |parts| == 3 && verb == TRANSFER && Lower(parts[2]) != DIRECTION)
    && (reason == TransferAmount <==>
          |parts| == 3 && verb == TRANSFER && Lower(parts[2]) == DIRECTION && !IsAmount(parts[1]))
  }

  ghost predicate IsAmount(s: string) {
    exists d: Decimal :: SpellsAmount(s, d)
  }

  lemma AmountIsRead(s: string)
    ensures ReadUnsigned(s, AMOUNT_PLACES).Some? <==> IsAmount(s)
  {
    if ReadUnsigned(s, AMOUNT_PLACES).Some? {
      AmountSpelling(s, ReadUnsigned(s, AMOUNT_PLACES).value);
    }
    if IsAmount(s) {
      var d: Decimal :| SpellsAmount(s, d);
      AmountSpelling(s, d);
    }
  }

  lemma RefusedForReason(parts: seq<string>, reason: Reason)
    requires ParseTokens(parts) == Refused(reason)
    ensures ReasonFits(parts, reason)
  {
    if parts != [] {
      VerbsRecognised(Upper(parts[0]));
    }
    if |parts| == 3 {
      AmountIsRead(parts[1]);
    }
  }

  /** A form letter is sent exactly when no rule spells the subject, and its reason fits the words. */
  lemma FormLetterReasons(hash: string -> string, subject: string, body: string)
    ensures var answer := Parse(hash, subject, body);
            && (answer.FormLetter? <==> forall c :: !Spells(Split(subject), c))
            && (answer.FormLetter? ==> ReasonFits(Split(subject), answer.reason))
  {
    SplitOfStrip(subject);
    var parts := Split(subject);
    match ParseTokens(parts)
    case Refused(reason) =>
      RefusedForReason(parts, reason);
      forall c ensures !Spells(parts, c) {
        ParserMeetsGrammar(parts, c);
      }
    case Accepted(c) => ParserMeetsGrammar(parts, c);
  }

  /**
   * What a parsed message keeps of the mail: the hash of subject and body together, without whitespace around them, and
   * the first 500 characters of the body for a rejection or a transfer, nothing of it for any other command.
   */
  lemma WhatParseKeeps(hash: string -> string, subject: string, body: string)
    ensures Parse(hash, subject, body).rawHash == hash(Strip(subject + "\n" + body))
    ensures var answer := Parse(hash, subject, body);
            answer.Message? ==>
              if answer.command.RejectProposal? || answer.command.EmergencyTransfer?
              then && answer.bodyExcerpt <= body
                   && |answer.bodyExcerpt| == (if |body| < 500 then |body| else 500)
              else answer.bodyExcerpt == ""
  {
  }

  // ---------- letter case and whitespace

  lemma SameLowerSameUpper(a: string, b: string)
    requires Lower(a) == Lower(b)
    ensures |a| == |b| && Upper(a) == Upper(b)
  {
    forall i | 0 <= i < |a| ensures UpperChar(a[i]) == UpperChar(b[i]) {
      assert Lower(a)[i] == Lower(b)[i];
    }
    assert |Lower(a)| == |Lower(b)|;
    assert Upper(a) == Upper(b);
  }

  predicate NoLetters(s: string) {
    forall i :: 0 <= i < |s| ==> IsDigit(s[i]) || s[i] == '.'
  }

  lemma NoLettersNoCase(a: string, b: string)
    requires NoLetters(a) && Lower(a) == Lower(b)
    ensures a == b
  {
    assert |a| == |b|;
    forall i | 0 <= i < |a| ensures a[i] == b[i] {
      assert Lower(a)[i] == Lower(b)[i];
    }
  }

  lemma AmountHasNoLetters(s: string, d: Decimal)
    requires SpellsAmount(s, d)
    ensures NoLetters(s)
  {
    var k: nat :| s == Zeros(k) + Text(d);
    assert NoLetters(MagnitudeText(d.coeff, d.places));
  }

  predicate SameButCase(a: seq<string>, b: seq<string>) {
    |a| == |b| && forall i :: 0 <= i < |a| ==> Lower(a[i]) == Lower(b[i])
  }

  lemma SpellsIgnoresCase(a: seq<string>, b: seq<string>, c: Command)
    requires SameButCase(a, b) && Spells(a, c)
    ensures Spells(b, c)
  {
    SameLowerSameUpper(a[0], b[0]);
    if c.KillAll? {
      SameLowerSameUpper(a[1], b[1]);
    } else if c.EmergencyTransfer? {
      AmountHasNoLetters(a[1], c.amount);
      NoLettersNoCase(a[1], b[1]);
    }
  }

  /** Letter case and the amount of whitespace change nothing about the command, nor about whether there is one. */
  lemma CaseAndSpacingDoNotMatter(hash: string -> string, s: string, t: string, body: string)
    requires SameButCase(Split(s), Split(t))
    ensures var p, q := Parse(hash, s, body), Parse(hash, t, body);
            (p.Message? <==> q.Message?) && (p.Message? ==> p.command == q.command && p.bodyExcerpt == q.bodyExcerpt)
  {
    var p, q := Parse(hash, s, body), Parse(hash, t, body);
    if p.Message? {
      ParseAcceptsExactlyTheGrammar(hash, s, body, p.command);
      SpellsIgnoresCase(Split(s), Split(t), p.command);
      ParseAcceptsExactlyTheGrammar(hash, t, body, p.command);
    }
    if q.Message? {
      ParseAcceptsExactlyTheGrammar(hash, t, body, q.command);
      SpellsIgnoresCase(Split(t), Split(s), q.command);
      ParseAcceptsExactlyTheGrammar(hash, s, body, q.command);
    }
  }

  // ---------- printing and parsing back

  function Tokens(c: Command): seq<string>
    requires Printable(c)
  {
    match c
    case Approve(id) => [APPROVE, UuidText(id)]
    case RejectProposal(id) => [REJECT, UuidText(id)]
    case Continue => [CONTINUE]
    case PauseAll => [PAUSE]
    case KillChild(id) => [KILL, UuidText(id)]
    case KillAll => [KILL, ALL]
    case Resume(id) => [RESUME, UuidText(id)]
    case EmergencyTransfer(d) => [TRANSFER, Text(d), DIRECTION]
  }

  /** The commands the language has: amounts are not negative and have at most two places. */
  predicate Printable(c: Command) {
    c.EmergencyTransfer? ==> c.amount.coeff >= 0 && c.amount.places <= AMOUNT_PLACES
  }

  function Join(words: seq<string>): string {
    if words == [] then "" else if |words| == 1 then words[0] else words[0] + " " + Join(words[1..])
  }

  function Print(c: Command): string
    requires Printable(c)
  {
    Join(Tokens(c))
  }

  lemma SplitOfWordAnd(word: string, rest: string)
    requires IsWord(word)
    ensures Split(word + " " + rest) == [word] + Split(rest)
  {
    assert word + " " + rest == word + (" " + rest);
    SplitWordAndGap(word, " ", rest);
  }

  lemma SplitWordAndGap(word: string, gap: string, rest: string)
    requires IsWord(word) && AllSpaces(gap) && gap != []
    ensures Split(word + (gap + rest)) == [word] + Split(rest)
  {
    assert (gap + rest)[0] == gap[0];
    SplitLeading(gap, rest);
    SplitFirstWord(word, gap + rest);
  }

  lemma {:induction false} SplitOfJoin(words: seq<string>)
    requires forall i :: 0 <= i < |words| ==> IsWord(words[i])
    ensures Split(Join(words)) == words
  {
    if |words| == 1 {
      SplitFirstWord(words[0], "");
      assert words[0] + "" == words[0];
    } else if |words| > 1 {
      SplitOfJoin(words[1..]);
      SplitOfWordAnd(words[0], Join(words[1..]));
      assert words == [words[0]] + words[1..];
    }
  }

  lemma HexIsWord(id: Uuid)
    ensures IsWord(UuidText(id))
  {
    var h := HexText(id, 32);
    HyphenatedDigits(h);
    var s := UuidText(id);
    forall i | 0 <= i < |s| ensures !IsSpace(s[i]) {
      HyphenatedAt(h, i);
    }
  }

  lemma VerbsAreWords()
    ensures IsWord(APPROVE) && IsWord(REJECT) && IsWord(CONTINUE) && IsWord(PAUSE) && IsWord(KILL) && IsWord(ALL)
            && IsWord(RESUME)
  {
  }

  lemma TransferWords()
    ensures IsWord(TRANSFER) && IsWord(DIRECTION)
  {
  }

  lemma AmountIsWord(d: Decimal)
    requires d.coeff >= 0
    ensures IsWord(Text(d))
  {
    assert NoLetters(MagnitudeText(d.coeff, d.places));
  }

  lemma VerbsAreUpper()
    ensures Upper(APPROVE) == APPROVE && Upper(REJECT) == REJECT && Upper(CONTINUE) == CONTINUE && Upper(PAUSE) == PAUSE
    ensures Upper(KILL) == KILL && Upper(ALL) == ALL && Upper(RESUME) == RESUME
  {
  }

  lemma TransferCase()
    ensures Upper(TRANSFER) == TRANSFER && Lower(DIRECTION) == DIRECTION
  {
  }

  lemma TokensAreWords(c: Command)
    requires Printable(c)
    ensures forall i :: 0 <= i < |Tokens(c)| ==> IsWord(Tokens(c)[i])
  {
    VerbsAreWords();
    match c
    case Approve(id) => HexIsWord(id);
    case RejectProposal(id) => HexIsWord(id);
    case KillChild(id) => HexIsWord(id);
    case Resume(id) => HexIsWord(id);
    case EmergencyTransfer(d) =>
      AmountIsWord(d);
      TransferWords();
    case _ =>
  }

  lemma LowerUuidText(id: Uuid)
    ensures Lower(UuidText(id)) == UuidText(id)
  {
    HyphenatedDigits(HexText(id, 32));
    HexValueOfText(id, 32);
    UuidSpelling(UuidText(id), id);
  }

  lemma TokensSpell(c: Command)
    requires Printable(c)
    ensures Spells(Tokens(c), c)
  {
    VerbsAreUpper();
    match c
    case Approve(id) => LowerUuidText(id);
    case RejectProposal(id) => LowerUuidText(id);
    case KillChild(id) => LowerUuidText(id);
    case Resume(id) => LowerUuidText(id);
    case EmergencyTransfer(d) =>
      TransferCase();
      assert Text(d) == Zeros(0) + Text(d);
    case _ =>
  }

  /** Round trip: parsing a printed command gives back its action, its 128-bit identifier and its amount. */
  lemma ParseOfPrint(hash: string -> string, c: Command, body: string)
    requires Printable(c)
    ensures Parse(hash, Print(c), body).Message? && Parse(hash, Print(c), body).command == c
  {
    TokensAreWords(c);
    SplitOfJoin(Tokens(c));
    TokensSpell(c);
    ParseAcceptsExactlyTheGrammar(hash, Print(c), body, c);
  }
}
