/** The lookup helpers over the country directory. The first five are
    each one forward scan that stops at the first country satisfying its
    predicate (`Array.prototype.find`), followed by optional chaining on the
    field returned; `getAllCountries` returns the directory itself. The
    directory is a parameter `cs`; being a value, no lookup can change it. */
module PhonePickerUtils {
  import opened Wrappers
  import opened Types
  import opened Text

  // ---------------------------------------------------------------------
  // The three predicates handed to `find`
  // ---------------------------------------------------------------------

  /** Used by getIsoCode: exact dial-code equality. */
  predicate HasDialCode(c: Country, dialCode: string) {
    c.dialCode == dialCode
  }

  /** Used by getDialCode: exact, case-sensitive ISO2 equality. */
  predicate HasIso2(c: Country, isoCode: string) {
    c.iso2 == isoCode
  }

  /** Used by getCountryFlag, getCountryName and getCountryObject: the
      identifier is either the exact dial code or the ISO2 code in any case. */
  predicate IsIdentifiedBy(c: Country, identifier: string) {
    c.dialCode == identifier || Lower(c.iso2) == Lower(identifier)
  }

  /** Which of the three predicates a scan uses. */
  datatype Criterion =
    | ByDialCode(dialCode: string)
    | ByIso2(isoCode: string)
    | ByIdentifier(identifier: string)

  predicate Matches(c: Country, k: Criterion) {
    match k
    case ByDialCode(d) => HasDialCode(c, d)
    case ByIso2(i) => HasIso2(c, i)
    case ByIdentifier(id) => IsIdentifiedBy(c, id)
  }

  /** Position `i` holds a match and no earlier position does. */
  ghost predicate IsFirstMatch(cs: seq<Country>, k: Criterion, i: int) {
    0 <= i < |cs| && Matches(cs[i], k) && forall j :: 0 <= j < i ==> !Matches(cs[j], k)
  }

  /** `cs.find(c => Matches(c, k))`. */
  function Find(cs: seq<Country>, k: Criterion): (r: Option<Country>)
    ensures r.None? <==> forall i :: 0 <= i < |cs| ==> !Matches(cs[i], k)
    ensures r.Some? ==> exists i :: IsFirstMatch(cs, k, i) && cs[i] == r.value
  {
    if cs == [] then None
    else if Matches(cs[0], k) then
      assert IsFirstMatch(cs, k, 0);
      Some(cs[0])
    else
      var r := Find(cs[1..], k);
      assert forall i :: IsFirstMatch(cs[1..], k, i) ==> IsFirstMatch(cs, k, i + 1);
      r
  }

  // ---------------------------------------------------------------------
  // The exported lookups
  // ---------------------------------------------------------------------

  /** getIsoCode: the ISO2 code of the first country with this exact dial
      code; absent, not an error, when there is none. */
  function GetIsoCode(cs: seq<Country>, dialCode: string): (r: Option<string>)
    ensures r.None? <==> forall i :: 0 <= i < |cs| ==> !HasDialCode(cs[i], dialCode)
    ensures r.Some? ==>
      exists i :: 0 <= i < |cs| && HasDialCode(cs[i], dialCode) && r.value == cs[i].iso2
        && forall j :: 0 <= j < i ==> !HasDialCode(cs[j], dialCode)
  {
    match Find(cs, ByDialCode(dialCode))
    case Some(c) => Some(c.iso2)
    case None => None
  }

  /** getDialCode: the dial code of the first country whose stored ISO2
      code equals `isoCode` exactly, case included. */
  function GetDialCode(cs: seq<Country>, isoCode: string): (r: Option<string>)
    ensures r.None? <==> forall i :: 0 <= i < |cs| ==> !HasIso2(cs[i], isoCode)
    ensures r.Some? ==>
      exists i :: 0 <= i < |cs| && HasIso2(cs[i], isoCode) && r.value == cs[i].dialCode
        && forall j :: 0 <= j < i ==> !HasIso2(cs[j], isoCode)
  {
    match Find(cs, ByIso2(isoCode))
    case Some(c) => Some(c.dialCode)
    case None => None
  }

  /** getCountryFlag: the flag of the first country the identifier names. */
  function GetCountryFlag(cs: seq<Country>, identifier: string): (r: Option<string>)
    ensures r.None? <==> forall i :: 0 <= i < |cs| ==> !IsIdentifiedBy(cs[i], identifier)
    ensures r.Some? ==>
      exists i :: 0 <= i < |cs| && IsIdentifiedBy(cs[i], identifier) && r.value == cs[i].flag
        && forall j :: 0 <= j < i ==> !IsIdentifiedBy(cs[j], identifier)
  {
    match Find(cs, ByIdentifier(identifier))
    case Some(c) => Some(c.flag)
    case None => None
  }

  /** getCountryName: the name of the first country the identifier names. */
  function GetCountryName(cs: seq<Country>, identifier: string): (r: Option<string>)
    ensures r.None? <==> forall i :: 0 <= i < |cs| ==> !IsIdentifiedBy(cs[i], identifier)
    ensures r.Some? ==>
      exists i :: 0 <= i < |cs| && IsIdentifiedBy(cs[i], identifier) && r.value == cs[i].name
        && forall j :: 0 <= j < i ==> !IsIdentifiedBy(cs[j], identifier)
  {
    match Find(cs, ByIdentifier(identifier))
    case Some(c) => Some(c.name)
    case None => None
  }

  /** getCountryObject: the first country the identifier names, as a whole
      record. */
  function GetCountryObject(cs: seq<Country>, identifier: string): (r: Option<Country>)
    ensures r.None? <==> forall i :: 0 <= i < |cs| ==> !IsIdentifiedBy(cs[i], identifier)
    ensures r.Some? ==>
      exists i :: 0 <= i < |cs| && IsIdentifiedBy(cs[i], identifier) && r.value == cs[i]
        && forall j :: 0 <= j < i ==> !IsIdentifiedBy(cs[j], identifier)
  {
    Find(cs, ByIdentifier(identifier))
  }

  /** getAllCountries: the directory itself, in its own order. The declared
      result type admits `undefined`, but the directory is always returned. */
  function GetAllCountries(cs: seq<Country>): (r: Option<seq<Country>>)
    ensures r.Some? && r.value == cs
  {
    Some(cs)
  }

  // ---------------------------------------------------------------------
  // Properties relating the lookups
  // ---------------------------------------------------------------------

  /** Flag and name lookups return the fields of the record that
      getCountryObject returns: all three use one predicate. */
  lemma FlagAndNameComeFromCountryObject(cs: seq<Country>, identifier: string)
    ensures GetCountryObject(cs, identifier).None? ==>
      GetCountryFlag(cs, identifier).None? && GetCountryName(cs, identifier).None?
    ensures GetCountryObject(cs, identifier).Some? ==>
      GetCountryFlag(cs, identifier) == Some(GetCountryObject(cs, identifier).value.flag) &&
      GetCountryName(cs, identifier) == Some(GetCountryObject(cs, identifier).value.name)
  {
  }

  /** No two countries share an ISO2 code exactly. */
  ghost predicate Iso2Unique(cs: seq<Country>) {
    forall i, j :: 0 <= i < |cs| && 0 <= j < |cs| && cs[i].iso2 == cs[j].iso2 ==> i == j
  }

  /** No two countries share an ISO2 code up to letter case. */
  ghost predicate Iso2UniqueIgnoringCase(cs: seq<Country>) {
    forall i, j :: 0 <= i < |cs| && 0 <= j < |cs| && Lower(cs[i].iso2) == Lower(cs[j].iso2) ==> i == j
  }

  /** With unique ISO2 codes, getDialCode recovers every country's dial code
      from its stored ISO2 code. */
  lemma GetDialCodeOfMember(cs: seq<Country>, i: int)
    requires Iso2Unique(cs)
    requires 0 <= i < |cs|
    ensures GetDialCode(cs, cs[i].iso2) == Some(cs[i].dialCode)
  {
  }

  /** getCountryObject finds a country by its ISO2 code when no earlier
      country is identified by that code: neither its ISO2 code up to case
      nor its dial code equals it. */
  lemma GetCountryObjectOfMember(cs: seq<Country>, i: int)
    requires 0 <= i < |cs|
    requires forall j :: 0 <= j < i ==> !IsIdentifiedBy(cs[j], cs[i].iso2)
    ensures GetCountryObject(cs, cs[i].iso2) == Some(cs[i])
  {
  }

  /** ISO2 codes unique up to case are enough for that, as long as no
      earlier dial code spells the code. */
  lemma GetCountryObjectOfMemberUnique(cs: seq<Country>, i: int)
    requires Iso2UniqueIgnoringCase(cs)
    requires 0 <= i < |cs|
    requires forall j :: 0 <= j < i ==> cs[j].dialCode != cs[i].iso2
    ensures GetCountryObject(cs, cs[i].iso2) == Some(cs[i])
  {
    GetCountryObjectOfMember(cs, i);
  }

  /** The ISO2 path is case-insensitive: as long as the identifier and its
      lower-cased form pick out the same dial codes, getCountryObject gives
      the same answer for both. */
  lemma GetCountryObjectIgnoresCase(cs: seq<Country>, s: string)
    requires forall i :: 0 <= i < |cs| ==> (cs[i].dialCode == s <==> cs[i].dialCode == Lower(s))
    ensures GetCountryObject(cs, s) == GetCountryObject(cs, Lower(s))
  {
  }

  /** The same in concrete terms: "US" and "us" name the same record. */
  lemma UpperAndLowerIso2Agree(cs: seq<Country>)
    requires forall i :: 0 <= i < |cs| ==> cs[i].dialCode != "US" && cs[i].dialCode != "us"
    ensures GetCountryObject(cs, "US") == GetCountryObject(cs, "us")
  {
    assert Lower("US") == "us";
    GetCountryObjectIgnoresCase(cs, "US");
  }

  /** getDialCode is case-sensitive: when the directory stores no lower-case
      letter in any ISO2 code, an argument holding one finds nothing. */
  lemma GetDialCodeIsCaseSensitive(cs: seq<Country>, isoCode: string, k: int)
    requires forall i, m :: 0 <= i < |cs| && 0 <= m < |cs[i].iso2| ==> !IsAsciiLower(cs[i].iso2[m])
    requires 0 <= k < |isoCode| && IsAsciiLower(isoCode[k])
    ensures GetDialCode(cs, isoCode) == None
  {
  }

  /** Dial-code tie-break: when the identifier is a dial code that no
      earlier country's ISO2 code spells, the flag returned is that of the
      first country carrying the dial code, not of any later one sharing it. */
  lemma GetCountryFlagByDialCode(cs: seq<Country>, dialCode: string, i: int)
    requires 0 <= i < |cs| && cs[i].dialCode == dialCode
    requires forall j :: 0 <= j < i ==> cs[j].dialCode != dialCode && Lower(cs[j].iso2) != Lower(dialCode)
    ensures GetCountryFlag(cs, dialCode) == Some(cs[i].flag)
  {
  }

  /** Where no ISO2 code spells the dial code, getIsoCode and
      getCountryObject resolve it to the same country. */
  lemma GetIsoCodeAgreesWithCountryObject(cs: seq<Country>, dialCode: string)
    requires forall i :: 0 <= i < |cs| ==> Lower(cs[i].iso2) != Lower(dialCode)
    ensures var o := GetCountryObject(cs, dialCode);
      GetIsoCode(cs, dialCode) == if o.Some? then Some(o.value.iso2) else None
  {
  }
}
