/**
 * The page's mutable state and its event handlers (script.js). The DOM is
 * represented by fields: the `active` classes of the menu, the toggle and the
 * amount buttons, the toggle's `aria-expanded`, the body's `overflow`, the
 * header's inline style, the custom-amount field's text, the global
 * `selectedAmount`, and the toasts attached to the body. What the page does
 * to the outside world (form resets, email-service requests, opened links,
 * alerts) is recorded in append-only logs.
 */
module Page {
  import opened Wrappers
  import opened Notifications
  import Forms
  import Header
  import Donation
  import Decimal

  datatype Form = VolunteerForm | DonationForm | ContactForm

  /** Where a click lands, as the page's click listeners tell it apart. */
  datatype ClickTarget = OnToggle | OnNavLink | ElsewhereInMenu | Outside

  class PageState {
    // mobile navigation
    var menuOpen: bool          // `.nav-menu` has class `active`
    var toggleActive: bool      // `.nav-toggle` has class `active`
    var ariaExpanded: string    // the toggle's `aria-expanded` attribute
    var bodyOverflow: string    // `document.body.style.overflow`

    // header
    var header: Option<Header.Style>  // `None` until the first scroll event
    var lastScrollY: real

    // donation amount picker
    const presets: seq<string>        // `data-amount` of each `.amount-btn`, in document order
    var activePreset: Option<nat>     // the button that has class `active`, if any
    var customAmount: string          // the value of `#custom-amount`
    var selectedAmount: Donation.Amount

    // toasts attached to the body
    var notifications: seq<Notification>
    var nextId: nat

    // effects outside the page
    var resets: seq<Form>
    var emailRequests: seq<Forms.TemplateParams>
    var openedLinks: seq<string>
    var alerts: seq<string>

    /**
     * The menu, the toggle, `aria-expanded` and the scroll lock agree; at most
     * one amount button is active; at most one toast is shown.
     */
    ghost predicate Valid()
      reads this
    {
      toggleActive == menuOpen &&
      ariaExpanded == (if menuOpen then "true" else "false") &&
      bodyOverflow == (if menuOpen then "hidden" else "") &&
      (activePreset.Some? ==> activePreset.value < |presets|) &&
      |notifications| <= 1 &&
      (forall n :: n in notifications ==> n.id < nextId)
    }

    ghost function Nav(): (bool, bool, string, string)
      reads this
    {
      (menuOpen, toggleActive, ariaExpanded, bodyOverflow)
    }

    ghost function Picker(): (Option<nat>, string, Donation.Amount)
      reads this
    {
      (activePreset, customAmount, selectedAmount)
    }

    ghost function Toasts(): (seq<Notification>, nat)
      reads this
    {
      (notifications, nextId)
    }

    ghost function Effects(): (seq<Form>, seq<Forms.TemplateParams>, seq<string>, seq<string>)
      reads this
    {
      (resets, emailRequests, openedLinks, alerts)
    }

    ghost function Scroll(): (Option<Header.Style>, real)
      reads this
    {
      (header, lastScrollY)
    }

    /** The page as loaded: menu closed, no button active, `selectedAmount` 25, nothing shown. */
    constructor (presets: seq<string>, scrollY: real)
      ensures Valid() && this.presets == presets
      ensures !menuOpen && ariaExpanded == "false" && bodyOverflow == ""
      ensures header == None && lastScrollY == scrollY
      ensures activePreset == None && customAmount == "" && selectedAmount == Donation.InitialAmount
      ensures notifications == [] && nextId == 0
      ensures resets == [] && emailRequests == [] && openedLinks == [] && alerts == []
    {
      menuOpen, toggleActive, ariaExpanded, bodyOverflow := false, false, "false", "";
      header, lastScrollY := None, scrollY;
      this.presets := presets;
      activePreset, customAmount, selectedAmount := None, "", Donation.InitialAmount;
      notifications, nextId := [], 0;
      resets, emailRequests, openedLinks, alerts := [], [], [], [];
    }

    /** The shared body of the link, outside-click and Escape handlers. */
    method CloseMenu()
      requires Valid()
      modifies this
      ensures Valid() && !menuOpen && ariaExpanded == "false" && bodyOverflow == ""
      ensures Picker() == old(Picker()) && Toasts() == old(Toasts())
      ensures Effects() == old(Effects()) && Scroll() == old(Scroll())
    {
      menuOpen := false;
      toggleActive := false;
      ariaExpanded := "false";
      bodyOverflow := "";
    }

    /**
     * A click, with every listener it reaches: the toggle flips the menu, a nav
     * link closes it, and the document-level listener closes it for a click
     * outside both toggle and menu.
     */
    method Click(target: ClickTarget)
      requires Valid()
      modifies this
      ensures Valid()
      ensures menuOpen == match target
                          case OnToggle => !old(menuOpen)
                          case ElsewhereInMenu => old(menuOpen)
                          case _ => false
      ensures ariaExpanded == (if menuOpen then "true" else "false")
      ensures bodyOverflow == (if menuOpen then "hidden" else "")
      ensures Picker() == old(Picker()) && Toasts() == old(Toasts())
      ensures Effects() == old(Effects()) && Scroll() == old(Scroll())
    {
      match target
      case OnToggle =>
        var isActive := menuOpen;
        menuOpen := !menuOpen;
        toggleActive := !toggleActive;
        ariaExpanded := if !isActive then "true" else "false";
        bodyOverflow := if !isActive then "hidden" else "";
      case OnNavLink =>
        CloseMenu();
      case ElsewhereInMenu =>
      case Outside =>
        CloseMenu();
    }

    /** A key press anywhere: Escape closes an open menu and does nothing otherwise. */
    method KeyDown(key: string)
      requires Valid()
      modifies this
      ensures Valid()
      ensures key == "Escape" ==> !menuOpen && ariaExpanded == "false" && bodyOverflow == ""
      ensures key != "Escape" || !old(menuOpen) ==> Nav() == old(Nav())
      ensures Picker() == old(Picker()) && Toasts() == old(Toasts())
      ensures Effects() == old(Effects()) && Scroll() == old(Scroll())
    {
      if key == "Escape" && menuOpen {
        CloseMenu();
      }
    }

    /** A scroll event restyles the header by the threshold and records the offset. */
    method OnScroll(scrollY: real)
      requires Valid()
      modifies this
      ensures Valid()
      ensures header == Some(Header.StyleFor(scrollY)) && lastScrollY == scrollY
      ensures Nav() == old(Nav()) && Picker() == old(Picker())
      ensures Toasts() == old(Toasts()) && Effects() == old(Effects())
    {
      header := Some(Header.StyleFor(scrollY));
      lastScrollY := scrollY;
    }

    /**
     * A click on amount button `i`, with both listeners that every button has and
     * the document-level listener, for which a button is outside the menu.
     */
    method PresetClick(i: nat)
      requires Valid() && i < |presets|
      modifies this
      ensures Valid()
      ensures activePreset == Some(i) && customAmount == ""
      ensures selectedAmount == Donation.Text(presets[i])
      ensures !menuOpen && ariaExpanded == "false" && bodyOverflow == ""
      ensures Toasts() == old(Toasts()) && Effects() == old(Effects()) && Scroll() == old(Scroll())
    {
      // script.js:113-125
      activePreset := Some(i);
      customAmount := "";
      // script.js:471-477
      activePreset := Some(i);
      selectedAmount := Donation.Text(presets[i]);
      customAmount := "";
      // script.js:36-42
      CloseMenu();
    }

    /** Typing in the custom-amount field: no button stays active; `selectedAmount` is kept. */
    method CustomInput(text: string)
      requires Valid()
      modifies this
      ensures Valid()
      ensures activePreset == None && customAmount == text && selectedAmount == old(selectedAmount)
      ensures Nav() == old(Nav()) && Toasts() == old(Toasts())
      ensures Effects() == old(Effects()) && Scroll() == old(Scroll())
    {
      customAmount := text;
      activePreset := None;
    }

    /** The `value` of the order `createOrder` asks the payment service to create. */
    method CreateOrder() returns (amount: Donation.Amount)
      ensures amount == Donation.OrderAmount(customAmount, selectedAmount)
    {
      amount := Donation.OrderAmount(customAmount, selectedAmount);
    }

    /** The payment service reported a captured order for a payer with this given name. */
    method OnApprove(givenName: string)
      requires Valid()
      modifies this
      ensures Valid() && alerts == old(alerts) + [Donation.ApprovalAlert(givenName)]
      ensures resets == old(resets) && emailRequests == old(emailRequests)
      ensures openedLinks == old(openedLinks)
      ensures Nav() == old(Nav()) && Picker() == old(Picker())
      ensures Toasts() == old(Toasts()) && Scroll() == old(Scroll())
    {
      alerts := alerts + [Donation.ApprovalAlert(givenName)];
    }

    /** The payment service reported an error. */
    method OnPaymentError()
      requires Valid()
      modifies this
      ensures Valid() && alerts == old(alerts) + [Donation.PaymentErrorAlert]
      ensures resets == old(resets) && emailRequests == old(emailRequests)
      ensures openedLinks == old(openedLinks)
      ensures Nav() == old(Nav()) && Picker() == old(Picker())
      ensures Toasts() == old(Toasts()) && Scroll() == old(Scroll())
    {
      alerts := alerts + [Donation.PaymentErrorAlert];
    }

    /** `showNotification`: every toast shown so far is removed and the new one is the only one. */
    method ShowNotification(message: string, kind: Option<string>)
      requires Valid()
      modifies this
      ensures Valid()
      ensures notifications == [Notification(old(nextId), message, KindOrDefault(kind))]
      ensures nextId == old(nextId) + 1
      ensures Nav() == old(Nav()) && Picker() == old(Picker())
      ensures Effects() == old(Effects()) && Scroll() == old(Scroll())
    {
      notifications := [];
      notifications := notifications + [Notification(nextId, message, KindOrDefault(kind))];
      nextId := nextId + 1;
    }

    /**
     * `removeNotification`, once its delay has passed: the toast is detached if it
     * is still attached, and nothing happens if a newer toast already replaced it.
     */
    method RemoveNotification(id: nat)
      requires Valid()
      modifies this
      ensures Valid()
      ensures notifications == if old(notifications) != [] && old(notifications)[0].id == id
                               then [] else old(notifications)
      ensures nextId == old(nextId)
      ensures Nav() == old(Nav()) && Picker() == old(Picker())
      ensures Effects() == old(Effects()) && Scroll() == old(Scroll())
    {
      if notifications != [] && notifications[0].id == id {
        notifications := [];
      }
    }

    /** The volunteer form's submit handler. */
    method SubmitVolunteer(data: Forms.FormData)
      requires Valid()
      modifies this
      ensures Valid()
      ensures var failure := Forms.FirstFailure(Forms.VolunteerChecks(data));
              if failure.Some? then
                notifications == [Notification(old(nextId), failure.value, "error")] &&
                resets == old(resets)
              else
                notifications == [Notification(old(nextId), Forms.VolunteerThanks, "success")] &&
                resets == old(resets) + [VolunteerForm]
      ensures nextId == old(nextId) + 1
      ensures emailRequests == old(emailRequests) && openedLinks == old(openedLinks)
      ensures alerts == old(alerts)
      ensures Nav() == old(Nav()) && Picker() == old(Picker()) && Scroll() == old(Scroll())
    {
      var failure := Forms.FirstFailure(Forms.VolunteerChecks(data));
      if failure.Some? {
        ShowNotification(failure.value, Some("error"));
        return;
      }
      ShowNotification(Forms.VolunteerThanks, Some("success"));
      resets := resets + [VolunteerForm];
    }

    /** The `data-amount` of the active button, as the donation handler looks it up. */
    function ActiveAmount(): Option<string>
      requires Valid()
      reads this
    {
      if activePreset.Some? then Some(presets[activePreset.value]) else None
    }

    /** The donation form's submit handler. */
    method SubmitDonation(data: Forms.FormData)
      requires Valid()
      modifies this
      ensures Valid()
      ensures var failure := Forms.FirstFailure(Forms.DonationChecks(old(ActiveAmount()), data));
              failure.Some? ==>
                notifications == [Notification(old(nextId), failure.value, "error")] &&
                resets == old(resets) && activePreset == old(activePreset)
      ensures var failure := Forms.FirstFailure(Forms.DonationChecks(old(ActiveAmount()), data));
              failure.None? ==>
                notifications == [Notification(old(nextId),
                                               Forms.DonationThanks(Forms.DonationAmount(old(ActiveAmount()), data)),
                                               "success")] &&
                resets == old(resets) + [DonationForm] && activePreset == None
      ensures nextId == old(nextId) + 1
      ensures customAmount == old(customAmount) && selectedAmount == old(selectedAmount)
      ensures emailRequests == old(emailRequests) && openedLinks == old(openedLinks)
      ensures alerts == old(alerts)
      ensures Nav() == old(Nav()) && Scroll() == old(Scroll())
    {
      var active := ActiveAmount();
      var failure := Forms.FirstFailure(Forms.DonationChecks(active, data));
      if failure.Some? {
        ShowNotification(failure.value, Some("error"));
        return;
      }
      CompleteDonation(Forms.DonationAmount(active, data));
    }

    /** The donation handler's success path: thank, reset the form, deactivate every button. */
    method CompleteDonation(amount: string)
      requires Valid()
      modifies this
      ensures Valid()
      ensures notifications == [Notification(old(nextId), Forms.DonationThanks(amount), "success")]
      ensures nextId == old(nextId) + 1
      ensures resets == old(resets) + [DonationForm] && activePreset == None
      ensures customAmount == old(customAmount) && selectedAmount == old(selectedAmount)
      ensures emailRequests == old(emailRequests) && openedLinks == old(openedLinks)
      ensures alerts == old(alerts)
      ensures Nav() == old(Nav()) && Scroll() == old(Scroll())
    {
      ShowNotification(Forms.DonationThanks(amount), Some("success"));
      resets := resets + [DonationForm];
      activePreset := None;
    }

    /**
     * The contact form's submit handler, with the email service's answer
     * `delivered` and `encodeURIComponent` as `encode`.
     */
    method SubmitContact(data: Forms.FormData, delivered: bool, encode: string -> string)
      requires Valid()
      modifies this
      ensures Valid()
      ensures var failure := Forms.FirstFailure(Forms.ContactChecks(data));
              failure.Some? ==>
                notifications == [Notification(old(nextId), failure.value, "error")] &&
                resets == old(resets) && emailRequests == old(emailRequests) &&
                openedLinks == old(openedLinks)
      ensures Forms.FirstFailure(Forms.ContactChecks(data)).None? ==>
                emailRequests == old(emailRequests) + [Forms.ContactTemplate(data)] &&
                resets == old(resets) + [ContactForm]
      ensures Forms.FirstFailure(Forms.ContactChecks(data)).None? && delivered ==>
                notifications == [Notification(old(nextId), Forms.ContactThanks, "success")] &&
                openedLinks == old(openedLinks)
      ensures Forms.FirstFailure(Forms.ContactChecks(data)).None? && !delivered ==>
                notifications == [Notification(old(nextId), Forms.ContactFallback, "success")] &&
                openedLinks == old(openedLinks) + [Forms.MailtoLink(data, encode)]
      ensures nextId == old(nextId) + 1
      ensures alerts == old(alerts)
      ensures Nav() == old(Nav()) && Picker() == old(Picker()) && Scroll() == old(Scroll())
    {
      var failure := Forms.FirstFailure(Forms.ContactChecks(data));
      if failure.Some? {
        ShowNotification(failure.value, Some("error"));
        return;
      }
      SendContact(Forms.ContactTemplate(data), Forms.MailtoLink(data, encode), delivered);
    }

    /**
     * The success path of the contact form (script.js:227-258): the request goes
     * to the email service; on failure the draft link is opened instead of the thanks.
     */
    method SendContact(request: Forms.TemplateParams, link: string, delivered: bool)
      requires Valid()
      modifies this
      ensures Valid()
      ensures emailRequests == old(emailRequests) + [request] && resets == old(resets) + [ContactForm]
      ensures delivered ==>
                notifications == [Notification(old(nextId), Forms.ContactThanks, "success")] &&
                openedLinks == old(openedLinks)
      ensures !delivered ==>
                notifications == [Notification(old(nextId), Forms.ContactFallback, "success")] &&
                openedLinks == old(openedLinks) + [link]
      ensures nextId == old(nextId) + 1
      ensures alerts == old(alerts)
      ensures Nav() == old(Nav()) && Picker() == old(Picker()) && Scroll() == old(Scroll())
    {
      emailRequests := emailRequests + [request];
      if delivered {
        ShowNotification(Forms.ContactThanks, Some("success"));
        resets := resets + [ContactForm];
      } else {
        openedLinks := openedLinks + [link];
        ShowNotification(Forms.ContactFallback, Some("success"));
        resets := resets + [ContactForm];
      }
    }
  }
}
