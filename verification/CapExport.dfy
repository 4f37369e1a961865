/**
 A spend cap on its way from the command line of the launcher, launcher/src/main.rs, through the
 environment to the ledger of the engine, src/spend-cap.ts.
 */
module CapExport {
  import opened Wrappers
  import opened Whitespace
  import opened Decimal
  import opened MoneyText
  import opened SpendLedger

  /**
   The cap given to the launcher reaches the ledger unchanged: what the launcher accepts and
   exports is read back as the exact number of micro-dollars the user wrote.
   */
  lemma CapSurvivesExport(raw: string)
    requires ParseSpendCapMinor(raw).Ok?
    ensures var s := Trim(raw, IsRustSpace);
      IsSpendCap(s) && ReadSpendCapMinor(Some(ParseSpendCapMinor(raw).value)) == Some(MinorOf(s))
  {
    var s := Trim(raw, IsRustSpace);
    CapIsExact(raw);
    hide Trim, MinorOf, ParseSpendCapMinor, ReadSpendCapMinor, Digits, IsPlainDecimal, Decimals;
    ReadsDigits(MinorOf(s));
  }
}
