/** The amount the PayPal button orders (script.js:469-490). */
module Donation {
  import opened Wrappers
  import Decimal

  /**
   * The global `selectedAmount`: the number 25 at load, then the clicked
   * button's `data-amount` string.
   */
  datatype Amount = Number(n: int) | Text(s: string)

  const InitialAmount := Number(25)

  /**
   * `createOrder`'s choice: the custom field's text when it is non-empty and
   * numerically greater than 0, else `selectedAmount`.
   */
  function OrderAmount(custom: string, selected: Amount): Amount {
    if custom != "" && Decimal.IsPositive(custom) then Text(custom) else selected
  }

  /**
   * The custom text is ordered exactly when it is a positive number; a custom
   * text that is not, is silently replaced by the last preset (or 25).
   */
  lemma OrderAmountChoice(custom: string, selected: Amount)
    requires selected != Text(custom)
    ensures OrderAmount(custom, selected) == Text(custom) <==> Decimal.IsPositive(custom)
    ensures OrderAmount(custom, selected) == selected <==> !Decimal.IsPositive(custom)
  {
    assert Decimal.IsPositive("") == false by { assert Decimal.ToNumber("") == Some(0.0); }
  }

  /** A well-formed custom amount is used exactly when it is unsigned-or-plus and has a non-zero digit. */
  lemma CustomUsedIff(custom: string, selected: Amount)
    requires Decimal.ToNumber(custom).Some? && selected != Text(custom)
    ensures OrderAmount(custom, selected) == Text(custom) <==>
              custom != [] && custom[0] != '-' && Decimal.HasNonZeroDigit(custom)
  {
    OrderAmountChoice(custom, selected);
    Decimal.PositiveIff(custom);
  }

  /** A whole-dollar custom amount is ordered exactly when it is not 0. */
  lemma WholeDollarsUsed(n: nat, selected: Amount)
    requires selected != Text(Decimal.Show(n))
    ensures OrderAmount(Decimal.Show(n), selected) == Text(Decimal.Show(n)) <==> n > 0
  {
    Decimal.ToNumberOfShow(n);
  }

  /** With the custom field empty, nothing but the preset is ever ordered: 25 before any click. */
  lemma EmptyCustomUsesSelected(selected: Amount)
    ensures OrderAmount("", selected) == selected
    ensures OrderAmount("", InitialAmount) == Number(25)
  {
  }

  function ApprovalAlert(givenName: string): string {
    "Thank you " + givenName + "! Your donation was successful."
  }

  const PaymentErrorAlert := "Payment error. Please try again."
}
