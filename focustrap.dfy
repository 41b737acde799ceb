/**
 * The Tab wrap-around of `trapFocus` (script.js:382-402), over the menu's
 * focusable descendants numbered 0 to `count - 1` in document order.
 */
module FocusTrap {
  import opened Wrappers

  /** What the keydown handler does: move focus and cancel the default, or nothing. */
  datatype Action = MoveFocus(target: nat) | BrowserDefault

  /**
   * `active` is the position of `document.activeElement` among the focusable
   * descendants, `None` when focus is elsewhere.
   */
  function OnKeyDown(key: string, shift: bool, count: nat, active: Option<nat>): (a: Action)
    ensures a.MoveFocus? ==> a.target < count
  {
    if key != "Tab" || count == 0 then BrowserDefault
    else if shift then (if active == Some(0) then MoveFocus(count - 1) else BrowserDefault)
    else (if active == Some(count - 1) then MoveFocus(0) else BrowserDefault)
  }

  /** The browser's own Tab step, assuming the list is the document's tab order. */
  function DefaultStep(i: nat, shift: bool): int {
    if shift then i - 1 else i + 1
  }

  /** Where focus ends up after a Tab or Shift+Tab from position `i`. */
  function FocusAfterTab(count: nat, i: nat, shift: bool): int
    requires i < count
  {
    match OnKeyDown("Tab", shift, count, Some(i))
    case MoveFocus(t) => t
    case BrowserDefault => DefaultStep(i, shift)
  }

  lemma ModOfSmall(x: int, m: int)
    requires 0 <= x < m
    ensures x % m == x
  {
  }

  lemma ModOfShifted(x: int, m: int)
    requires 0 <= x < m
    ensures (x + m) % m == x
  {
  }

  /** Tab cycles forward and Shift+Tab backward through the list; focus never leaves it. */
  lemma TabCycles(count: nat, i: nat, shift: bool)
    requires i < count
    ensures FocusAfterTab(count, i, shift) == if shift then (i + count - 1) % count else (i + 1) % count
    ensures 0 <= FocusAfterTab(count, i, shift) < count
  {
    if shift {
      if i == 0 { ModOfSmall(count - 1, count); } else { ModOfShifted(i - 1, count); }
    } else {
      if i == count - 1 { ModOfShifted(0, count); } else { ModOfSmall(i + 1, count); }
    }
  }

  /** Keys other than Tab, and an empty list, are left to the browser. */
  lemma OtherKeysIgnored(key: string, shift: bool, count: nat, active: Option<nat>)
    requires key != "Tab" || count == 0
    ensures OnKeyDown(key, shift, count, active) == BrowserDefault
  {
  }
}
