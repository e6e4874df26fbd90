/** An emergency transfer from end to end: signed by the operator's tool, sent as a command, checked by the ledger. */
module EmergencyFlow {
  import opened Wrappers
  import opened Numerals
  import W = Words
  import D = Decimals
  import P = OperatorParser
  import G = OperatorGrammar
  import opened InflowSplit
  import opened Ledger
  import LedgerRuns

  /** What the signing tool prints: it signs the amount as typed. */
  function CliSign(mac: Mac, secret: string, amountText: string, dateIso: string): string {
    mac(secret, amountText + "|" + dateIso)
  }

  ghost predicate CollisionFree(mac: Mac) {
    forall secret: string, a: string, b: string :: mac(secret, a) == mac(secret, b) ==> a == b
  }

  predicate SuperfluousZeroAmount(text: string) {
    SuperfluousZero(text[..DigitRun(text)])
  }

  lemma SameDate(a: string, b: string, date: string)
    ensures a + "|" + date == b + "|" + date <==> a == b
  {
    if a + "|" + date == b + "|" + date {
      assert |a + "|" + date| == |a| + 1 + |date| && |b + "|" + date| == |b| + 1 + |date|;
      assert (a + "|" + date)[..|a|] == a && (b + "|" + date)[..|b|] == b;
    }
  }

  /**
   * Signing agreement: for an amount text the command parser accepts, the ledger verifies the tool's signature of the
   * typed text when that text has no superfluous leading zero, and under a collision-free hash only then.
   */
  lemma SigningAgreement(mac: Mac, secret: string, text: string, dateIso: string)
    requires D.ReadUnsigned(text, P.AMOUNT_PLACES).Some?
    ensures var d := D.ReadUnsigned(text, P.AMOUNT_PLACES).value;
            && (!SuperfluousZeroAmount(text) ==>
                   VerifyHmac(mac, secret, d, dateIso, CliSign(mac, secret, text, dateIso)))
            && (CollisionFree(mac) ==>
                  (VerifyHmac(mac, secret, d, dateIso, CliSign(mac, secret, text, dateIso)) <==>
                      !SuperfluousZeroAmount(text)))
  {
    D.TextOfRead(text, P.AMOUNT_PLACES);
    SameDate(D.Text(D.ReadUnsigned(text, P.AMOUNT_PLACES).value), text, dateIso);
  }

  /**
   * Amounts of at most two places are whole ledger units, so the entry schema never refuses them for being too fine.
   */
  lemma CentsAreWholeUnits(d: D.Decimal)
    requires d.places <= P.AMOUNT_PLACES
    ensures WholeUnits(D.Micros(d))
  {
    var hundreds := match d.places case 0 => 10_000 * d.coeff case 1 => 1_000 * d.coeff case _ => 100 * d.coeff;
    assert D.Micros(d) == UNIT * hundreds;
    WholeShift(0, -hundreds);
  }

  /** The transfer's three tokens, the outer two in any letter case. */
  predicate IsTransferOf(parts: seq<string>, text: string) {
    |parts| == 3 && Upper(parts[0]) == P.TRANSFER && parts[1] == text && Lower(parts[2]) == P.DIRECTION
  }

  /**
   * Main result: a subject with the transfer's three tokens is parsed to the amount typed, and with the tool's
   * signature of that typed amount the ledger carries it out exactly when the amount has no superfluous leading zero,
   * is positive, and fits the entry schema; it then moves exactly that amount from Reserve to Operating.
   */
  lemma SignedCommandIsCarriedOut(mac: Mac, hash: string -> string, rows: seq<Row>, subject: string, body: string,
                                  text: string, dateIso: string, secret: string)
    requires CollisionFree(mac) && D.ReadUnsigned(text, P.AMOUNT_PLACES).Some?
    requires IsTransferOf(W.Split(subject), text)
    ensures var d := D.ReadUnsigned(text, P.AMOUNT_PLACES).value;
            var signature := CliSign(mac, secret, text, dateIso);
            var after := Apply(mac, rows, TransferOp(d, dateIso, signature, secret));
            && P.Parse(hash, subject, body).Message?
            && P.Parse(hash, subject, body).command == P.EmergencyTransfer(d)
            && (TransferAllowed(mac, d, dateIso, signature, secret) <==>
                  && !SuperfluousZeroAmount(text) && d.coeff > 0
                  && D.Micros(d) < 100_000_000_000_000 && |dateIso| <= 486)
            && IsAmount(D.Micros(d), d)
            && (TransferAllowed(mac, d, dateIso, signature, secret) ==>
                  && PotSum(after, Reserve) == PotSum(rows, Reserve) - D.Micros(d)
                  && PotSum(after, Operating) == PotSum(rows, Operating) + D.Micros(d)
                  && FlatSum(after) == FlatSum(rows))
  {
    var d := D.ReadUnsigned(text, P.AMOUNT_PLACES).value;
    var signature := CliSign(mac, secret, text, dateIso);
    ParsedTransfer(hash, subject, body, text, d);
    SigningAgreement(mac, secret, text, dateIso);
    CentsAreWholeUnits(d);
    D.MicrosExact(d);
    assert |TransferNote(dateIso)| == 26 + |dateIso|;
    if TransferAllowed(mac, d, dateIso, signature, secret) {
      LedgerRuns.TransferConserves(mac, rows, d, dateIso, signature, secret);
    }
  }

  lemma ParsedTransfer(hash: string -> string, subject: string, body: string, text: string, d: D.Decimal)
    requires D.ReadUnsigned(text, P.AMOUNT_PLACES) == Some(d)
    requires IsTransferOf(W.Split(subject), text)
    ensures P.Parse(hash, subject, body).Message? && P.Parse(hash, subject, body).command == P.EmergencyTransfer(d)
  {
    G.AmountSpelling(text, d);
    G.ParseAcceptsExactlyTheGrammar(hash, subject, body, P.EmergencyTransfer(d));
  }
}
