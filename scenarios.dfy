/** Event sequences on one page, composed from the handlers' contracts alone. */
module Scenarios {
  import opened Wrappers
  import opened Page
  import Forms
  import FormProperties
  import Donation
  import Decimal
  import Notifications

  /** Opening the menu and pressing Escape leaves it closed with `aria-expanded` false. */
  method OpenThenEscape(p: PageState)
    requires p.Valid() && !p.menuOpen
    modifies p
    ensures p.Valid() && !p.menuOpen && p.ariaExpanded == "false" && p.bodyOverflow == ""
    ensures p.Picker() == old(p.Picker()) && p.Toasts() == old(p.Toasts())
  {
    p.Click(OnToggle);
    assert p.menuOpen && p.ariaExpanded == "true" && p.bodyOverflow == "hidden";
    p.KeyDown("Escape");
  }

  /**
   * A preset, then typing, then another preset: typing deactivates the first
   * button, and the second click empties the custom field and is what is ordered.
   */
  method PresetTypePreset(p: PageState, i: nat, typed: string, j: nat)
    returns (activeAfterTyping: Option<nat>, order: Donation.Amount)
    requires p.Valid() && i < |p.presets| && j < |p.presets|
    modifies p
    ensures activeAfterTyping == None
    ensures p.activePreset == Some(j) && p.customAmount == ""
    ensures order == Donation.Text(p.presets[j])
  {
    p.PresetClick(i);
    p.CustomInput(typed);
    activeAfterTyping := p.activePreset;
    p.PresetClick(j);
    order := p.CreateOrder();
  }

  /**
   * After a preset click and typing, the order is for the typed text when it is a
   * positive number, and for the preset otherwise, though no button shows active.
   */
  method PresetThenTyped(p: PageState, i: nat, typed: string) returns (order: Donation.Amount)
    requires p.Valid() && i < |p.presets|
    modifies p
    ensures p.activePreset == None
    ensures order == if Decimal.IsPositive(typed) then Donation.Text(typed)
                     else Donation.Text(p.presets[i])
  {
    p.PresetClick(i);
    p.CustomInput(typed);
    order := p.CreateOrder();
    assert Decimal.ToNumber("") == Some(0.0);
  }

  /** The `Jo`/`jo@x.com`/`Hi` contact message: one success toast and a reset, whatever the email service answers. */
  method ContactExample(p: PageState, delivered: bool, encode: string -> string)
    requires p.Valid()
    modifies p
    ensures |p.notifications| == 1 && p.notifications[0].kind == "success"
    ensures p.resets == old(p.resets) + [ContactForm]
    ensures |p.emailRequests| == |old(p.emailRequests)| + 1
    ensures |p.openedLinks| == |old(p.openedLinks)| + (if delivered then 0 else 1)
  {
    var data := map["name" := "Jo", "email" := "jo@x.com", "message" := "Hi"];
    FormProperties.ContactExampleAccepted();
    p.SubmitContact(data, delivered, encode);
  }

  /** A donation with no active preset and no typed amount: one error toast, nothing else. */
  method DonationWithoutAmount(p: PageState, data: Forms.FormData)
    requires p.Valid() && p.activePreset == None && !Forms.Filled(data, "amount")
    modifies p
    ensures p.notifications == [Notifications.Notification(old(p.nextId), Forms.MissingAmount, "error")]
    ensures p.Effects() == old(p.Effects())
  {
    FormProperties.DonationAmountCheckFirst(None, data);
    p.SubmitDonation(data);
  }
}
