/** The persisted analytics-consent flag: one string under one storage key. */
module ConsentStore {
  import opened Wrappers

  /** The browser-local storage key that holds the flag. */
  const ConsentKey: string := "hasAnalyticsConsent"

  /** The tri-state reading of the flag: no decision yet, or a decision. */
  datatype Reading = Unset | Decided(granted: bool)

  /** JavaScript's `String(b)` for a boolean. */
  function BoolString(b: bool): string
  {
    if b then "true" else "false"
  }

  /** The stored value after writing the decision `b`. */
  function Store(b: bool): (stored: Option<string>)
    ensures stored.Some?
    ensures b <==> stored == Some("true")
    ensures !b <==> stored == Some("false")
  {
    Some(BoolString(b))
  }

  /** Reads the flag: absence is no decision, exactly "true" is a grant, and any
      other string, "false" or not, is a refusal. */
  function CheckHasConsent(stored: Option<string>): (r: Reading)
    ensures r == Unset <==> stored == None
    ensures r == Decided(true) <==> stored == Some("true")
    ensures r == Decided(false) <==> stored.Some? && stored.value != "true"
  {
    match stored
    case None => Unset
    case Some(v) => Decided(v == "true")
  }

  /** Writing a decision and reading it back gives the decision. */
  lemma ReadAfterWrite(b: bool)
    ensures CheckHasConsent(Store(b)) == Decided(b)
  {
  }

  /** The popup is offered only while no decision is stored. */
  function ShouldMountPopup(stored: Option<string>): (mount: bool)
    ensures mount <==> stored == None
  {
    CheckHasConsent(stored) == Unset
  }
}
