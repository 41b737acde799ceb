# Recrafted Futures page behaviour, modelled in Dafny

`script.js` drives the Recrafted Futures website. It handles the mobile navigation menu, the header's restyling on scroll, the three forms (volunteer, donation, contact), the toast notifications, the donation-amount picker feeding the PayPal button, the statistic counters and the menu's focus trap. This project models the rules inside those handlers and proves what they promise:

- the email check against its regular expression;
- the order of each form's checks and what each outcome does;
- the amount `createOrder` sends;
- the toast list and its colours;
- the header threshold;
- the Tab wrap-around;
- the counter's digit/suffix split and its clamped animation.

The DOM is a class of fields, `Page.PageState`. It holds:

- the `active` classes;
- `aria-expanded`;
- the body's `overflow`;
- the header style;
- the custom-amount text and the global `selectedAmount`;
- the attached toasts.

The page's effects on the outside world are append-only logs: form resets, email-service requests, opened `mailto:` links and alerts. The two SDKs become inputs. The email service's answer is a boolean passed to the contact handler. A payment approval or error is its own handler method.

Modules, one file each:

- `wrappers.dfy`: `Option`, where `None` is `undefined`.
- `text.dfy`: the first index of a character.
- `decimal.dfy`: digit strings, their canonical rendering, and the part of `Number(string)` that `createOrder` uses.
- `email.dfy`: `isValidEmail`.
- `forms.dfy`: the ordered checks of the three submit handlers, the email template and the fallback draft. Module `FormProperties` holds their properties.
- `notifications.dfy`, `header.dfy`, `focustrap.dfy`, `counter.dfy`, `donation.dfy`: the smaller rules.
- `page.dfy`: the page state and every event handler.
- `scenarios.dfy`: event sequences proved from the handlers' contracts alone.

Points where the code behaves differently from what a reader might expect, modelled as written:

- A counter does not start at `0+` on its way to `1200+`. The code's first write is `floor(1200 / 125) + "+"`, which is `9+` (`Counter.FirstWriteOf1200` with `Counter.AnimateCounter`).
- The contact handler sends the email service `from_name: 'Anonymous'` and never the typed name. The typed name reaches only the fallback draft. This is modelled as written.
- A click on an amount button is also a click outside the menu. `PresetClick` therefore closes the menu too.

## Model

| member | source | states |
|---|---|---|
| `Email.IsValidEmailIffMatches` | script.js:267-270 | The direct test (no whitespace, one `@` with text before it, a `.` inside the domain) accepts exactly the strings that split as atom `@` atom `.` atom, where an atom is `[^\s@]+`. |
| `Email.AcceptsPlainAddress` | script.js:267-270 | `a@b.com` is accepted. |
| `Email.RejectsMissingDot` | script.js:267-270 | `a@b` is rejected. |
| `Email.RejectsMissingAt` | script.js:267-270 | `a.com` is rejected. |
| `Email.RejectsSecondAt` | script.js:267-270 | Any string with two `@` characters, wherever they stand, is rejected. |
| `Email.RejectsSpace` | script.js:267-270 | Any string with a whitespace character anywhere is rejected. |
| `Email.RejectsExamples` | script.js:267-270 | `a@b@c.com` and `a b@c.com` are rejected. |
| `Forms.FirstFailure` | script.js:150-158 | The early-return chain: the result is `None` exactly when every check passes. Otherwise it is the message of a failing check with only passing checks before it. |
| `Forms.FieldOr` | script.js:231-233 | `data[key] \|\| fallback` is never empty when the fallback is not. It is the typed text whenever there is one, and otherwise the fallback. |
| `FormProperties.VolunteerRequiredBeforeFormat` | script.js:150-158 | The volunteer form reports the required-fields error exactly when name or email is missing. It does so whatever the email looks like. |
| `FormProperties.VolunteerAccepts` | script.js:150-162 | The volunteer form is accepted exactly when name and email are filled and the email is well formed. |
| `FormProperties.ContactAccepts` | script.js:210-218 | The contact form is accepted exactly when name, email and message are filled and the email is well formed. |
| `FormProperties.ContactRequiredBeforeFormat` | script.js:210-218 | The contact form reports the required-fields error exactly when name, email or message is missing. |
| `FormProperties.ContactAcceptedTemplate` | script.js:227-236 | An accepted contact message sends the inbox address, the typed non-empty message and a well-formed reply-to address. |
| `FormProperties.ContactTemplateDefaults` | script.js:227-236 | The request's phone, school and subject are never empty. Each is the typed text when one was typed, and otherwise `Not provided`, `Not provided` and `General Question`. |
| `FormProperties.DraftAgreesWithTemplate` | script.js:246-253 | The fallback draft goes to the same inbox and carries the same subject, email, phone, school and message as the email-service request. |
| `FormProperties.ContactExampleAccepted` | script.js:210-218 | Name `Jo`, email `jo@x.com` and message `Hi` pass every contact check. |
| `FormProperties.DonationAmountCheckFirst` | script.js:175-181 | The amount error comes first. It is given exactly when no active preset carries an amount and no amount was typed. |
| `FormProperties.DonationPresetWins` | script.js:176-194 | An active preset's amount takes precedence over the typed amount. |
| `FormProperties.DonationAcceptedHasAmount` | script.js:178-195 | An accepted donation has filled name and email, a well-formed email, and thanks the donor for a non-empty amount. |
| `Notifications.ColourIdentifiesKind` | script.js:294 | Green `#28a745` exactly for `success`, red `#dc3545` exactly for `error`, blue `#007bff` for every other type. |
| `Notifications.DefaultIsInfo` | script.js:273-294 | With the type left out, the toast is `info` and blue. |
| `Header.StyleThreshold` | script.js:74-80 | The opaque look exactly above 100 px of scroll, the translucent look otherwise. |
| `Header.StyleMonotone` | script.js:74-80 | Scrolling further down never brings back the translucent look. |
| `FocusTrap.OnKeyDown` | script.js:387-399 | Focus is moved only to a focusable element of the menu. |
| `FocusTrap.TabCycles` | script.js:382-402 | With the handler's wrap, Tab moves focus to `(i + 1) mod n` and Shift+Tab to `(i - 1) mod n`, so focus never leaves the menu. |
| `FocusTrap.OtherKeysIgnored` | script.js:388-400 | Keys other than Tab, and a menu with nothing focusable, are left to the browser. |
| `Counter.DigitsOf` | script.js:350 | The target's text consists of digits only. |
| `Counter.SplitConcat` | script.js:350-351 | Both splits keep the order of the text: the split of `a + b` is the split of `a` followed by the split of `b`. |
| `Counter.MixedText` | script.js:350-351 | `1,200+` reads as the digits `1200` with the suffix `,+`. |
| `Counter.Suffix` | script.js:351 | The suffix contains no digit. |
| `Counter.SplitIsPartition` | script.js:350-351 | Digits and suffix together are exactly the characters of the text, as a multiset. |
| `Counter.SplitNumberAndSuffix` | script.js:350-351 | For a number followed by a digit-free suffix, the split returns exactly the two parts. |
| `Counter.EndsOnOriginalText` | script.js:350-362 | A counter whose text is a canonical number plus suffix ends on exactly its original text. |
| `Counter.ThousandTwoHundredPlus` | script.js:350-362 | `1200+` has target 1200 and suffix `+`, and ends on `1200+`. |
| `Counter.ReachesTargetAt` | script.js:352-359 | For a positive target, the unclamped value reaches the target from tick 2000/16 = 125 on, and not before. |
| `Counter.ShownAtMonotone` | script.js:352-360 | A later tick never shows a smaller number than an earlier one. |
| `Counter.FirstWriteOf1200` | script.js:352-360 | For target 1200 the first number written is 9. |
| `Counter.AnimateCounter` | script.js:349-364 | The timer loop writes one frame per tick: 125 frames, or 1 for target 0. Tick `k` shows `floor(k * target / 125)`, clamped to the target. Each shown value is at most the target. The values never decrease. The last value is the target and the last frame is `target + suffix`. |
| `Decimal.ValueOfShow` | script.js:350-362 | Reading back a rendered number gives the number. |
| `Decimal.ShowOfValue` | script.js:350-362 | Rendering the value of a canonical digit string gives the string back. |
| `Decimal.ToNumberOfShow` | script.js:490 | A rendered whole number is read by `Number` as that number. |
| `Decimal.PositiveIff` | script.js:490 | A well-formed amount is `> 0` exactly when it has no minus sign and a non-zero digit. |
| `Donation.OrderAmountChoice` | script.js:489-490 | The custom text is ordered exactly when it is numerically positive. Otherwise `selectedAmount` is ordered. |
| `Donation.CustomUsedIff` | script.js:489-490 | A well-formed custom amount is used exactly when it is unsigned or `+`-signed and has a non-zero digit. |
| `Donation.WholeDollarsUsed` | script.js:489-490 | A whole-dollar custom amount is used exactly when it is not 0. |
| `Donation.EmptyCustomUsesSelected` | script.js:469-490 | With the custom field empty, the order is `selectedAmount`, which is 25 before any click. |
| `Page.PageState.constructor` | script.js:469 | The page as loaded: menu closed, no button active, custom field empty, `selectedAmount` 25, no toast, empty logs. |
| `Page.PageState.CloseMenu` | script.js:28-31 | The menu and toggle are closed, `aria-expanded` is `false` and overflow is `''`. Nothing else changes. |
| `Page.PageState.Click` | script.js:13-43 | A toggle click flips the menu, with `aria-expanded` equal to the new state and overflow `hidden` exactly when open. A link click or an outside click closes it. A click elsewhere in the menu changes nothing. |
| `Page.PageState.KeyDown` | script.js:367-377 | Escape leaves the menu closed. Escape on a closed menu, and any other key, change nothing. |
| `Page.PageState.OnScroll` | script.js:71-83 | The header takes the style for the new offset, and the offset is recorded. |
| `Page.PageState.PresetClick` | script.js:113-125 | With the second listener at 471-477 and the outside-click listener: exactly button `i` is active, the custom field is `''` and `selectedAmount` is the button's `data-amount`. |
| `Page.PageState.CustomInput` | script.js:129-134 | Typing leaves no button active and keeps `selectedAmount`. |
| `Page.PageState.CreateOrder` | script.js:488-498 | The order's value is the amount chosen from the custom text and `selectedAmount`. |
| `Page.PageState.OnApprove` | script.js:500-508 | A captured payment appends the thank-you alert with the payer's given name. |
| `Page.PageState.OnPaymentError` | script.js:510-513 | A payment error appends the generic failure alert. |
| `Page.PageState.ShowNotification` | script.js:273-305 | Afterwards exactly one toast is attached, with the given message and type (default `info`). |
| `Page.PageState.RemoveNotification` | script.js:325-332 | The toast is detached if it is still attached. If a newer toast replaced it, nothing happens. |
| `Page.PageState.SubmitVolunteer` | script.js:143-163 | A failing check shows its error toast, with no reset. Otherwise one success toast and one reset. |
| `Page.PageState.SubmitDonation` | script.js:168-198 | A failing check shows its error toast, with the active button kept and no reset. Otherwise the thank-you toast for the chosen amount, a reset, and no button active. `selectedAmount` is never touched. |
| `Page.PageState.CompleteDonation` | script.js:193-197 | The success path: thank-you toast, reset, no button active. |
| `Page.PageState.SubmitContact` | script.js:203-263 | A failing check shows its error toast before any request or reset. Otherwise one request to the email service and a reset. On delivery the thanks toast. On failure the `mailto:` draft is opened and a success toast still shows. |
| `Page.PageState.SendContact` | script.js:227-258 | The success path: the request is logged and the form reset; then either the thanks toast, or the draft link opened and the fallback toast. |
| `Scenarios.OpenThenEscape` | script.js:367-377 | Opening the menu and then pressing Escape leaves it closed with `aria-expanded` `false`. |
| `Scenarios.PresetTypePreset` | script.js:113-134 | Preset, then typing, then another preset: typing deactivates the button, and the second click empties the field and is what gets ordered. |
| `Scenarios.PresetThenTyped` | script.js:489-490 | After a preset and typing, the order is the typed text if it is positive. Otherwise it is the old preset, though no button shows active. |
| `Scenarios.ContactExample` | script.js:203-258 | The contact example gives one success toast and a reset, whether or not the email service delivers. A `mailto:` draft is opened only when it does not. |
| `Scenarios.DonationWithoutAmount` | script.js:175-181 | No active preset and no typed amount: one error toast and no effect. |

## Left out

- Smooth scrolling to anchors (script.js:47-65) is not modelled: it is a browser call.
- The fade-in and reveal observers (script.js:86-107, 424-441) and lazy image loading (script.js:410-422) are not modelled. They are IntersectionObserver and style-string behaviour.
- Timers are not modelled: the 10 ms slide-in, the 5000 ms auto-dismiss, the 300 ms removal delay, the 16 ms counter interval, and `debounce` (script.js:449-459). `RemoveNotification` models only the final detach.
- The email service call (script.js:239-262) is modelled synchronously, with its answer as an input. The submit button's `Sending...`/disabled state is not modelled. Neither are overlapping submissions while a request is pending.
- `emailjs.init`, PayPal's `Buttons`/`render`/style, `console` output and `alert` are foreign calls. Alerts and opened links are logged; the rest is not modelled.
- `encodeURIComponent` is an uninterpreted function parameter.
- `window.RecraftedFutures` (script.js:462-467) is an empty stub and is not modelled.
- The trailing `style: { ... },` fragment (script.js:515-520) is not modelled. As written it is a syntax error, so a browser would reject the whole script before any handler is installed. The model describes the handlers as if the fragment were absent.
- Every page region (toggle, menu, header, custom-amount field, forms, amount buttons) is assumed present. The source's unguarded accesses would throw when one is missing.
- What `form.reset()` does to each field depends on the page markup, which is not part of this model. A reset is a log entry, and `customAmount` is left unchanged by it.
- `Page.PageState.PresetClick` assumes both click listeners are attached. The one at script.js:471-477 is attached at script load, and only to buttons that exist then. The combined effect does not depend on the listeners' order.
- Toast markup, class name and inline CSS are not modelled. The message is inserted as HTML, unescaped, and that is not modelled either.
- `Counter.AnimateCounter`: the increment uses exact reals. With IEEE doubles, rounding can put the clamp one tick later (126 frames). The clamp and the final `target + suffix` frame hold either way.
- `Counter.AnimateCounter`: requires that the text has a digit. Without one, `parseInt` gives NaN, every comparison with it is false, and the source's timer never stops.
- `Counter.AnimateCounter`: targets beyond 2^53 lose precision in JavaScript. The model's integers are exact.
- `Decimal.ToNumber`: covers an optional sign, digits and an optional fraction. JavaScript's `Number` also accepts surrounding whitespace, exponents, `0x`/`0o`/`0b` literals and `Infinity`; here those read as NaN.
- `Email.IsSpace` is the ECMAScript `\s` set written out. JavaScript strings are UTF-16 code units and Dafny characters are Unicode scalar values, so lone surrogates are not modelled.
- `FocusTrap.TabCycles`: assumes the browser's own Tab step moves to the adjacent focusable element of the menu. The focusable selector's evaluation is not modelled; the element count is a parameter.
