/**
 * The sign step of the currency formatter: the magnitude is formatted on its
 * own, and a minus sign is put in front of it for a negative amount.
 */
module Currency {

  /** The formatted text of `amount`, given the formatted text of its magnitude. */
  function FormatCurrency(amount: real, magnitude: string): (r: string)
    ensures amount < 0.0 ==> r == "-" + magnitude
    ensures amount >= 0.0 ==> r == magnitude
  {
    if amount < 0.0 then "-" + magnitude else magnitude
  }

  /** When the formatted magnitude carries no sign of its own, the text starts
      with a minus sign exactly when the amount is negative, and dropping that
      sign gives back the magnitude. */
  lemma SignShowsNegative(amount: real, magnitude: string)
    requires magnitude == [] || magnitude[0] != '-'
    ensures var r := FormatCurrency(amount, magnitude);
      && (r != [] && r[0] == '-' <==> amount < 0.0)
      && (if amount < 0.0 then r[1..] else r) == magnitude
  {
  }

  /** An amount and its negation format to the same text up to the sign. */
  lemma NegationOnlyFlipsSign(amount: real, magnitude: string)
    requires amount != 0.0
    ensures FormatCurrency(amount, magnitude) == "-" + FormatCurrency(-amount, magnitude)
         || FormatCurrency(-amount, magnitude) == "-" + FormatCurrency(amount, magnitude)
  {
  }
}
