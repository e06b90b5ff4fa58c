// getCategoryColor: a chart colour per category key, read from an object
// literal with `map[key] ?? map.default`.
module CategoryColors {
  import opened Common

  const DefaultColour: string := "#7f7f7f"

  /** The own properties of the colour table. */
  function OwnColour(key: string): (r: Option<string>)
    ensures r.Some? <==> key in OwnKeys
  {
    if key == "FIXED" then Some("#1f77b4")
    else if key == "FIXED_PREVIEW" then Some("#ff7f0e")
    else if key == "LOAN" then Some("#2ca02c")
    else if key == "CREDIT_CARD" then Some("#d62728")
    else if key == "SUBSCRIPTION" then Some("#9467bd")
    else if key == "INSTALLMENT_PAYMENT" then Some("#8c564b")
    else if key == "ACCOUNT_PAYMENT" then Some("#e377c2")
    else if key == "OTHER" then Some(DefaultColour)
    else if key == "default" then Some(DefaultColour)
    else None
  }

  const OwnKeys: set<string> := {"FIXED", "FIXED_PREVIEW", "LOAN", "CREDIT_CARD", "SUBSCRIPTION",
                                 "INSTALLMENT_PAYMENT", "ACCOUNT_PAYMENT", "OTHER", "default"}

  const TableColours: set<string> := {"#1f77b4", "#ff7f0e", "#2ca02c", "#d62728", "#9467bd",
                                      "#8c564b", "#e377c2", DefaultColour}

  /** Members every object literal inherits from Object.prototype; a property
      read with one of these names finds a function or an object, never undefined. */
  const PrototypeKeys: set<string> := {
    "constructor", "toString", "toLocaleString", "valueOf", "hasOwnProperty",
    "isPrototypeOf", "propertyIsEnumerable", "__proto__", "__defineGetter__",
    "__defineSetter__", "__lookupGetter__", "__lookupSetter__"}

  /** What `map[key]` evaluates to. */
  datatype Lookup = Colour(hex: string) | Inherited(member: string)

  /** The lookup as written: own properties first, then the prototype chain,
      and only an undefined result falls back to `map.default`. */
  function GetCategoryColorAsWritten(key: string): (r: Lookup)
    ensures r.Colour? <==> key !in PrototypeKeys
    ensures r.Colour? ==> r.hex in TableColours
    ensures r.Inherited? ==> r.member == key
  {
    if OwnColour(key).Some? then Colour(OwnColour(key).value)
    else if key in PrototypeKeys then Inherited(key)
    else Colour(DefaultColour)
  }

  /** The inherited key "constructor" yields the Object function, not a colour string. */
  lemma InheritedKeyIsNotAColour()
    ensures !GetCategoryColorAsWritten("constructor").Colour?
  {
    assert "constructor" !in OwnKeys;
  }

  /** The lookup restricted to the table's own keys: always one of the table's colours. */
  function GetCategoryColor(key: string): (r: string)
    ensures r in TableColours
    ensures key in OwnKeys ==> Some(r) == OwnColour(key)
    ensures key !in OwnKeys ==> r == DefaultColour
  {
    var own := OwnColour(key);
    if own.Some? then own.value else DefaultColour
  }

  /** Off the prototype's member names the corrected lookup is the lookup as written. */
  lemma CorrectedAgreesAsWritten(key: string)
    requires key !in PrototypeKeys
    ensures GetCategoryColorAsWritten(key) == Colour(GetCategoryColor(key))
  {
  }

  /** OTHER and every unlisted key share the default colour. */
  lemma OtherIsDefault(key: string)
    requires key !in OwnKeys
    ensures GetCategoryColor(key) == GetCategoryColor("OTHER") == GetCategoryColor("default")
  {
  }
}
