/** Payment-type decoding (app.py:60-63): the code-to-name dictionary, the
    `Series.map` that leaves unmapped codes missing, and `fillna("Unknown")`. */
module Payments {
  import opened Trips

  const UNKNOWN := "Unknown"

  /** `payment_map` of app.py:60. */
  const CODE_NAMES: map<int, string> :=
    map[1 := "Credit Card", 2 := "Cash", 3 := "No Charge", 4 := "Dispute"]

  /** `Series.map(payment_map)` on one value: missing where the code has no entry. */
  function MapCode(code: int): (name: Option<string>)
    ensures name.Some? <==> 1 <= code <= 4
  {
    if code in CODE_NAMES then Some(CODE_NAMES[code]) else None
  }

  /** `fillna("Unknown")` on one value. */
  function FillUnknown(name: Option<string>): (s: string)
    ensures name.Some? ==> s == name.value
    ensures name.None? ==> s == UNKNOWN
  {
    match name
    case Some(n) => n
    case None => UNKNOWN
  }

  /** The payment name the script leaves in each row: map, then fill. */
  function PaymentName(code: int): (name: string)
    ensures name == UNKNOWN <==> !(1 <= code <= 4)
    ensures code == 1 ==> name == "Credit Card"
    ensures code == 2 ==> name == "Cash"
    ensures code == 3 ==> name == "No Charge"
    ensures code == 4 ==> name == "Dispute"
  {
    FillUnknown(MapCode(code))
  }

  /** Distinct known codes decode to distinct names, so each name other than
      "Unknown" identifies its code. */
  lemma PaymentNameInjective(c1: int, c2: int)
    requires 1 <= c1 <= 4 && 1 <= c2 <= 4
    requires PaymentName(c1) == PaymentName(c2)
    ensures c1 == c2
  {
  }
}
