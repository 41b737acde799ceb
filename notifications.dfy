/** The toast shown by `showNotification` (script.js:273-305). */
module Notifications {
  import opened Wrappers

  /** One toast element; `id` stands for the identity of its DOM node. */
  datatype Notification = Notification(id: nat, message: string, kind: string)

  /** The `type` parameter's default. */
  function KindOrDefault(kind: Option<string>): string {
    kind.GetOr("info")
  }

  const SuccessColour := "#28a745"
  const ErrorColour := "#dc3545"
  const InfoColour := "#007bff"

  /** The toast's background colour for its type. */
  function Colour(kind: string): string {
    if kind == "success" then SuccessColour
    else if kind == "error" then ErrorColour
    else InfoColour
  }

  /**
   * Each colour marks one kind of message: green only for success, red only for
   * error, and blue for every other type.
   */
  lemma ColourIdentifiesKind(kind: string)
    ensures Colour(kind) == SuccessColour <==> kind == "success"
    ensures Colour(kind) == ErrorColour <==> kind == "error"
    ensures Colour(kind) == InfoColour <==> kind != "success" && kind != "error"
  {
  }

  /** Leaving out the type gives an info toast. */
  lemma DefaultIsInfo()
    ensures KindOrDefault(None) == "info" && Colour(KindOrDefault(None)) == InfoColour
  {
  }
}
