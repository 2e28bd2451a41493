/** The country picker modal: the alias lookup, the multi-criteria search
    filter over the directory, and the handlers through which the modal
    changes its parent's state. The directory and the alias table are
    parameters. */
module CountryPickerModal {
  import opened Types
  import opened Text
  import PhonePickerInputMain

  // ---------------------------------------------------------------------
  // Aliases
  // ---------------------------------------------------------------------

  /** getCommonNames: the aliases listed for the country's ISO2 code, and
      none for a country the table does not mention. */
  function GetCommonNames(commonNames: map<string, seq<string>>, c: Country): (r: seq<string>)
    ensures c.iso2 !in commonNames ==> r == []
    ensures c.iso2 in commonNames ==> r == commonNames[c.iso2]
  {
    if c.iso2 in commonNames then commonNames[c.iso2] else []
  }

  /** `aliases.some(n => n.toLowerCase().includes(searchLower))`. */
  predicate AnyAliasIncludes(aliases: seq<string>, searchLower: string) {
    aliases != [] && (Includes(Lower(aliases[0]), searchLower) || AnyAliasIncludes(aliases[1..], searchLower))
  }

  lemma {:induction false} AnyAliasIncludesIff(aliases: seq<string>, searchLower: string)
    ensures AnyAliasIncludes(aliases, searchLower) <==>
      exists k :: 0 <= k < |aliases| && Includes(Lower(aliases[k]), searchLower)
  {
    if aliases != [] {
      AnyAliasIncludesIff(aliases[1..], searchLower);
      assert forall k :: 1 <= k < |aliases| ==> aliases[k] == aliases[1..][k - 1];
    }
  }

  // ---------------------------------------------------------------------
  // The search filter
  // ---------------------------------------------------------------------

  /** The per-country test of the filter. Name, ISO2 and aliases are
      compared with the lower-cased query, the dial code with the query as
      typed; the query is not trimmed. */
  predicate MatchesSearch(commonNames: map<string, seq<string>>, c: Country, searchText: string)
    ensures searchText == [] ==> MatchesSearch(commonNames, c, searchText)
    ensures Includes(c.dialCode, searchText) ==> MatchesSearch(commonNames, c, searchText)
  {
    var searchLower := Lower(searchText);
    var nameLower := Lower(c.name);
    var iso2Lower := Lower(c.iso2);
    || nameLower == searchLower
    || iso2Lower == searchLower
    || Includes(nameLower, searchLower)
    || Includes(iso2Lower, searchLower)
    || AnyAliasIncludes(GetCommonNames(commonNames, c), searchLower)
    || Includes(c.dialCode, searchText)
  }

  /** `a` is `b` with some elements left out, the rest in their order. */
  ghost predicate IsSubsequence(a: seq<Country>, b: seq<Country>)
    decreases |b|
  {
    a == [] || (b != [] && ((a[0] == b[0] && IsSubsequence(a[1..], b[1..])) || IsSubsequence(a, b[1..])))
  }

  lemma {:induction false} SubsequenceReflexive(a: seq<Country>)
    ensures IsSubsequence(a, a)
    decreases |a|
  {
    if a != [] {
      SubsequenceReflexive(a[1..]);
    }
  }

  /** `Countries.filter(...)` for a non-blank query. */
  function KeepMatching(cs: seq<Country>, commonNames: map<string, seq<string>>, searchText: string): (r: seq<Country>)
    ensures IsSubsequence(r, cs)
    ensures forall c :: c in r ==> c in cs && MatchesSearch(commonNames, c, searchText)
    ensures forall i :: 0 <= i < |cs| && MatchesSearch(commonNames, cs[i], searchText) ==> cs[i] in r
  {
    if cs == [] then []
    else
      var rest := KeepMatching(cs[1..], commonNames, searchText);
      assert forall i :: 1 <= i < |cs| ==> cs[i] == cs[1..][i - 1];
      if MatchesSearch(commonNames, cs[0], searchText) then
        assert ([cs[0]] + rest)[1..] == rest;
        [cs[0]] + rest
      else
        rest
  }

  /** filteredCountries: the whole directory for a blank query, otherwise
      exactly the matching countries, in directory order. */
  function FilterCountries(cs: seq<Country>, commonNames: map<string, seq<string>>, searchText: string): (r: seq<Country>)
    ensures IsBlank(searchText) ==> r == cs
    ensures !IsBlank(searchText) ==>
      forall c :: c in r <==> c in cs && MatchesSearch(commonNames, c, searchText)
    ensures IsSubsequence(r, cs)
  {
    TrimEmptyIffBlank(searchText);
    SubsequenceReflexive(cs);
    if Trim(searchText) == "" then cs else KeepMatching(cs, commonNames, searchText)
  }

  // ---------------------------------------------------------------------
  // Properties of the filter
  // ---------------------------------------------------------------------

  /** The filter is stable: it commutes with concatenating directories. */
  lemma {:induction false} KeepMatchingAppend(a: seq<Country>, b: seq<Country>, commonNames: map<string, seq<string>>, searchText: string)
    ensures KeepMatching(a + b, commonNames, searchText) ==
      KeepMatching(a, commonNames, searchText) + KeepMatching(b, commonNames, searchText)
  {
    if a == [] {
      assert a + b == b;
    } else {
      assert (a + b)[0] == a[0] && (a + b)[1..] == a[1..] + b;
      KeepMatchingAppend(a[1..], b, commonNames, searchText);
    }
  }

  /** Filtering an already filtered list with the same query changes nothing. */
  lemma {:induction false} KeepMatchingIdempotent(cs: seq<Country>, commonNames: map<string, seq<string>>, searchText: string)
    ensures KeepMatching(KeepMatching(cs, commonNames, searchText), commonNames, searchText) ==
      KeepMatching(cs, commonNames, searchText)
  {
    if cs != [] {
      KeepMatchingIdempotent(cs[1..], commonNames, searchText);
    }
  }

  /** Two queries that accept the same countries filter alike. */
  lemma {:induction false} KeepMatchingCongruent(cs: seq<Country>, commonNames: map<string, seq<string>>, q1: string, q2: string)
    requires forall i :: 0 <= i < |cs| ==>
      (MatchesSearch(commonNames, cs[i], q1) <==> MatchesSearch(commonNames, cs[i], q2))
    ensures KeepMatching(cs, commonNames, q1) == KeepMatching(cs, commonNames, q2)
  {
    if cs != [] {
      KeepMatchingCongruent(cs[1..], commonNames, q1, q2);
    }
  }

  /** The exact-equality checks are subsumed by the substring checks:
      dropping them would not change which countries match. */
  lemma ExactChecksAreRedundant(commonNames: map<string, seq<string>>, c: Country, searchText: string)
    ensures MatchesSearch(commonNames, c, searchText) <==>
      || Includes(Lower(c.name), Lower(searchText))
      || Includes(Lower(c.iso2), Lower(searchText))
      || AnyAliasIncludes(GetCommonNames(commonNames, c), Lower(searchText))
      || Includes(c.dialCode, searchText)
  {
    IncludesSelf(Lower(c.name));
    IncludesSelf(Lower(c.iso2));
  }

  /** The search predicate by positions: the lower-cased query occurs in
      the lower-cased name, ISO2 code or one alias, or the query as typed
      occurs in the dial code. */
  lemma MatchesSearchByPosition(commonNames: map<string, seq<string>>, c: Country, searchText: string)
    ensures MatchesSearch(commonNames, c, searchText) <==>
      || (exists i: nat :: OccursAt(Lower(c.name), Lower(searchText), i))
      || (exists i: nat :: OccursAt(Lower(c.iso2), Lower(searchText), i))
      || (exists k, i: nat :: 0 <= k < |GetCommonNames(commonNames, c)| &&
            OccursAt(Lower(GetCommonNames(commonNames, c)[k]), Lower(searchText), i))
      || (exists i: nat :: OccursAt(c.dialCode, searchText, i))
  {
    var aliases := GetCommonNames(commonNames, c);
    var q := Lower(searchText);
    IncludesIff(Lower(c.name), q);
    IncludesIff(Lower(c.iso2), q);
    IncludesIff(c.dialCode, searchText);
    ExactChecksAreRedundant(commonNames, c, searchText);
    AnyAliasIncludesIff(aliases, q);
    forall k | 0 <= k < |aliases| {
      IncludesIff(Lower(aliases[k]), q);
    }
  }

  /** A country with no alias-table entry is matched by name, ISO2 or dial
      code only. */
  lemma NoAliasEntry(commonNames: map<string, seq<string>>, c: Country, searchText: string)
    requires c.iso2 !in commonNames
    ensures MatchesSearch(commonNames, c, searchText) <==>
      || Includes(Lower(c.name), Lower(searchText))
      || Includes(Lower(c.iso2), Lower(searchText))
      || Includes(c.dialCode, searchText)
  {
    IncludesSelf(Lower(c.name));
    IncludesSelf(Lower(c.iso2));
  }

  /** Name, ISO2 and alias matching ignore the query's letter case; only
      the dial-code test sees the query as typed. So when the dial-code
      test gives the same answer for the query and its lower-cased form,
      the two filter alike. */
  lemma SearchIgnoresCaseOutsideDialCode(cs: seq<Country>, commonNames: map<string, seq<string>>, searchText: string)
    requires forall i :: 0 <= i < |cs| ==>
      (Includes(cs[i].dialCode, searchText) <==> Includes(cs[i].dialCode, Lower(searchText)))
    ensures FilterCountries(cs, commonNames, searchText) == FilterCountries(cs, commonNames, Lower(searchText))
  {
    LowerIdempotent(searchText);
    LowerKeepsBlank(searchText);
    TrimEmptyIffBlank(searchText);
    TrimEmptyIffBlank(Lower(searchText));
    KeepMatchingCongruent(cs, commonNames, searchText, Lower(searchText));
  }

  /** The empty query and a whitespace-only query both return the directory. */
  lemma BlankQueriesKeepAll(cs: seq<Country>, commonNames: map<string, seq<string>>)
    ensures FilterCountries(cs, commonNames, "") == cs
    ensures FilterCountries(cs, commonNames, "   ") == cs
    ensures FilterCountries(cs, commonNames, " \t\n") == cs
  {
  }

  /** On a one-country directory, a non-blank query keeps the country
      exactly when it matches. */
  lemma FilterSingleton(commonNames: map<string, seq<string>>, c: Country, searchText: string)
    requires !IsBlank(searchText)
    ensures FilterCountries([c], commonNames, searchText) ==
      if MatchesSearch(commonNames, c, searchText) then [c] else []
  {
    TrimEmptyIffBlank(searchText);
    assert [c][1..] == [];
  }

  lemma LowerUnitedStates()
    ensures Lower("United States") == "united states"
    ensures Lower("US") == "us" && Lower("usa") == "usa"
  {
  }

  /** "usa" is neither in "us", which is too short, nor in "+1". */
  lemma UsaNotInCodes()
    ensures !Includes("us", "usa") && !Includes("+1", "usa")
  {
    IncludesIff("us", "usa");
    IncludesNeedsFirstChar("+1", "usa");
  }

  /** "usa" is not a substring of "united states": the one 'u' is followed
      by an 'n'. */
  lemma UsaNotInUnitedStates()
    ensures !Includes("united states", "usa")
  {
    var name := "united states";
    assert !("usa" <= name) by {
      assert name[1] != "usa"[1];
    }
    assert 'u' !in name[1..];
    IncludesNeedsFirstChar(name[1..], "usa");
  }

  /** Without an alias entry, "usa" is in neither the name, the ISO2 code
      nor the dial code of the United States. */
  lemma UnitedStatesNeedsAlias(us: Country)
    requires us.name == "United States" && us.iso2 == "US" && us.dialCode == "+1"
    ensures !MatchesSearch(map[], us, "usa")
  {
    var m: map<string, seq<string>> := map[];
    NoAliasEntry(m, us, "usa");
    LowerUnitedStates();
    UsaNotInUnitedStates();
    UsaNotInCodes();
  }

  /** "usa" finds the United States through its alias entry, and without
      that entry it does not. */
  lemma AliasFindsUnitedStates(flag: string)
    ensures var us := Country("United States", "US", "+1", flag);
      FilterCountries([us], map["US" := ["USA", "America"]], "usa") == [us] &&
      FilterCountries([us], map[], "usa") == []
  {
    var us := Country("United States", "US", "+1", flag);
    var m := map["US" := ["USA", "America"]];
    assert Lower("usa") == "usa" && Lower("USA") == "usa";
    assert AnyAliasIncludes(GetCommonNames(m, us), Lower("usa"));
    assert !IsBlank("usa") by {
      assert !IsWhitespace("usa"[0]);
    }
    FilterSingleton(m, us, "usa");
    UnitedStatesNeedsAlias(us);
    FilterSingleton(map[], us, "usa");
  }

  /** A lower-cased string has a space only where the original has one. */
  lemma SpaceSurvivesLower(s: string)
    requires ' ' !in s
    ensures ' ' !in Lower(s)
  {
    forall i | 0 <= i < |s| ensures Lower(s)[i] != ' ' {
      assert s[i] != ' ';
    }
  }

  /** A query starting with a space matches no country without a space in
      its name or ISO2 code and none in its dial code. */
  lemma LeadingSpaceMisses(c: Country, q: string)
    requires ' ' !in c.name && ' ' !in c.iso2 && ' ' !in c.dialCode
    requires q != [] && q[0] == ' '
    ensures !MatchesSearch(map[], c, q)
  {
    assert Lower(q)[0] == ' ';
    SpaceSurvivesLower(c.name);
    SpaceSurvivesLower(c.iso2);
    IncludesNeedsFirstChar(Lower(c.name), Lower(q));
    IncludesNeedsFirstChar(Lower(c.iso2), Lower(q));
    IncludesNeedsFirstChar(c.dialCode, q);
  }

  /** "+1" and " +1" are not blank. */
  lemma PlusOneQueriesNotBlank()
    ensures !IsBlank("+1") && !IsBlank(" +1")
  {
    assert !IsWhitespace("+1"[0]);
    assert !IsWhitespace(" +1"[1]);
  }

  /** A non-blank query is used untrimmed: " +1" does not find a "+1"
      country whose name and code hold no space, while "+1" does. */
  lemma NonBlankQueryIsNotTrimmed(c: Country)
    requires c.dialCode == "+1"
    requires ' ' !in c.name && ' ' !in c.iso2
    ensures FilterCountries([c], map[], "+1") == [c]
    ensures FilterCountries([c], map[], " +1") == []
  {
    var m: map<string, seq<string>> := map[];
    IncludesSelf(c.dialCode);
    PlusOneQueriesNotBlank();
    FilterSingleton(m, c, "+1");
    LeadingSpaceMisses(c, " +1");
    FilterSingleton(m, c, " +1");
  }

  // ---------------------------------------------------------------------
  // The modal's own state and handlers
  // ---------------------------------------------------------------------

  class CountryPicker {
    /** The directory and the alias table, both read-only. */
    const countries: seq<Country>
    const commonNames: map<string, seq<string>>

    /** The input component that owns the selection and the visibility. */
    const parent: PhonePickerInputMain.PickerInput

    var searchText: string

    constructor (countries: seq<Country>, commonNames: map<string, seq<string>>, parent: PhonePickerInputMain.PickerInput)
      ensures this.countries == countries && this.commonNames == commonNames && this.parent == parent
      ensures searchText == ""
    {
      this.countries := countries;
      this.commonNames := commonNames;
      this.parent := parent;
      searchText := "";
    }

    /** The filtered list (`filteredCountries`): a function of the search text alone. */
    function FilteredCountries(): (r: seq<Country>)
      reads this`searchText
      ensures IsSubsequence(r, countries)
    {
      FilterCountries(countries, commonNames, searchText)
    }

    /** `setSearchText`, the search box's default `onChangeText`. */
    method SetSearchText(text: string)
      modifies this`searchText
      ensures searchText == text
    {
      searchText := text;
    }

    /** Tapping a list item: the parent's selection handler receives exactly
        that item, then the modal is closed. The search text is kept. */
    method SelectItem(item: Country)
      modifies parent`selectedCountry, parent`notified, parent`modalVisible
      ensures parent.selectedCountry == item
      ensures parent.notified == old(parent.notified) + (if parent.hasOnSelectCountry then [item] else [])
      ensures !parent.modalVisible
      ensures searchText == old(searchText)
    {
      parent.HandleSelectCountry(item);
      parent.SetModalVisible(false);
    }

    /** A tap on the backdrop, or the platform's back request, closes the modal. */
    method Dismiss()
      modifies parent`modalVisible
      ensures !parent.modalVisible
      ensures parent.selectedCountry == old(parent.selectedCountry)
    {
      parent.SetModalVisible(false);
    }
  }
}
