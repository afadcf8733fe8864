/**
 * The customer-identity checks shared by the sale dialog and the customer
 * correction dialog (inventory_ui.py:520-533 and 924-935): a name of letters
 * and spaces, a contact of exactly ten digits. Inputs arrive already stripped
 * of surrounding whitespace.
 */
module Validation {
  import opened Common

  /** Which identity check rejected the input, in the order the checks run. */
  datatype IdentityError = EmptyName | NameNotAlphabetic | EmptyContact | ContactNotTenDigits

  /** One character of the class `[A-Za-z ]`. */
  predicate IsNameChar(c: char) {
    ('A' <= c <= 'Z') || ('a' <= c <= 'z') || c == ' '
  }

  /** One character of the class `\d` (ASCII digits). */
  predicate IsDigit(c: char) {
    '0' <= c <= '9'
  }

  /** The name matches `[A-Za-z ]+` in full. */
  predicate ValidCustomerName(name: string) {
    |name| > 0 && forall i :: 0 <= i < |name| ==> IsNameChar(name[i])
  }

  /** The contact matches `\d{10}` in full. */
  predicate ValidContact(contact: string) {
    |contact| == 10 && forall i :: 0 <= i < |contact| ==> IsDigit(contact[i])
  }

  /** Runs the four checks in the source's order and reports the first that fails. */
  function CheckIdentity(name: string, contact: string): (r: Option<IdentityError>)
    ensures r.None? <==> ValidCustomerName(name) && ValidContact(contact)
    ensures r == Some(EmptyName) <==> name == ""
    ensures r == Some(NameNotAlphabetic) <==> name != "" && !ValidCustomerName(name)
    ensures r == Some(EmptyContact) <==> ValidCustomerName(name) && contact == ""
    ensures r == Some(ContactNotTenDigits) <==> ValidCustomerName(name) && contact != "" && !ValidContact(contact)
  {
    if name == "" then Some(EmptyName)
    else if exists i :: 0 <= i < |name| && !IsNameChar(name[i]) then Some(NameNotAlphabetic)
    else if contact == "" then Some(EmptyContact)
    else if |contact| != 10 || exists i :: 0 <= i < |contact| && !IsDigit(contact[i]) then Some(ContactNotTenDigits)
    else None
  }
}
