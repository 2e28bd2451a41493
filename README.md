# Phone country picker: directory lookups, search filter and picker state

A Dafny model of the logic inside a React Native phone-number input with a
country picker. Three parts are modelled:

- **Lookups** (`PhonePickerUtils`): `getIsoCode`, `getDialCode`,
  `getCountryFlag`, `getCountryName`, `getCountryObject` and
  `getAllCountries`. The first five are each one first-match scan over
  the country directory; `getAllCountries` returns the directory itself.
  In Dafny they are pure functions over the directory,
  which is passed in as a `seq<Country>`. "Not found" is `None`.
- **Search filter** (`CountryPickerModal`): the list the modal shows for
  a search text. It keeps the directory order. A blank query returns the
  whole directory. Otherwise a country matches by lower-cased name or ISO2
  code (exact or substring), by a lower-cased alias (substring), or when
  its dial code contains the query exactly as typed. The alias table `COUNTRY_COMMON_NAMES` is a
  parameter of type `map<string, seq<string>>`.
- **Picker state** (`PhonePickerInputMain.PickerInput` and
  `CountryPickerModal.CountryPicker`): classes whose methods stand for the
  React state setters and event handlers. `PickerInput` holds
  `modalVisible` and `selectedCountry`. `CountryPicker` holds
  `searchText` and changes its parent's state when an item is tapped.
  In the component, the parent hands the modal two callbacks,
  `setModalVisible` and `handleSelectCountry`; the model represents them
  by a reference to the parent `PickerInput`, so the modal module imports
  the input module rather than the other way round.
  The optional `onSelectCountry` callback is modelled as a flag saying
  whether it was passed. Each call is recorded in the field `notified`.

`Text` models the JavaScript string operations used: `toLowerCase` for
ASCII letters, `trim` with the ECMAScript white-space and line-terminator
set, and `includes`. `Wrappers` defines `Option`, and `Types` defines the
`Country` record.

Three points where the code's behaviour is easy to misread:
- `getAllCountries` is declared to return `Country[] | undefined`, but it
  always returns the directory. The model returns `Some(cs)`. Nothing
  requires the directory to be non-empty.
- `getCountryObject(c.iso2)` is `c` when no earlier country has that ISO2
  code up to case or a dial code equal to it (`GetCountryObjectOfMember`).
  ISO2 codes unique up to case are enough, provided no earlier dial code
  spells the code (`GetCountryObjectOfMemberUnique`).
- In the shipped compiled modal the item handler also clears the search
  text. The TypeScript source handler does not. The model follows the
  source: `SelectItem` keeps `searchText`.

## Model

| member | source | states |
|---|---|---|
| `PhonePickerUtils.Find` | src/phonePickerUtils.ts:58-62 | `Array.find`: absent exactly when no country satisfies the predicate; otherwise the element at the first satisfying position |
| `PhonePickerUtils.GetIsoCode` | src/phonePickerUtils.ts:11-14 | absent iff no dial code equals the argument exactly; otherwise the `iso2` of the first country, in directory order, with that dial code |
| `PhonePickerUtils.GetDialCode` | src/phonePickerUtils.ts:21-24 | absent iff no stored `iso2` equals the argument exactly (case-sensitive); otherwise the first such country's `dialCode` |
| `PhonePickerUtils.GetCountryFlag` | src/phonePickerUtils.ts:31-37 | absent iff no country has the identifier as its dial code or as its ISO2 code ignoring case; otherwise the flag of the first such country |
| `PhonePickerUtils.GetCountryName` | src/phonePickerUtils.ts:44-50 | the same predicate and first-match rule, returning the name |
| `PhonePickerUtils.GetCountryObject` | src/phonePickerUtils.ts:57-63 | the same predicate; the result, when present, is the first directory element satisfying it, and when absent no element satisfies it |
| `PhonePickerUtils.GetAllCountries` | src/phonePickerUtils.ts:69-71 | always present, and equal to the directory in its own order |
| `PhonePickerUtils.FlagAndNameComeFromCountryObject` | src/phonePickerUtils.ts:31-63 | flag and name lookups return the `flag` and `name` of whatever `getCountryObject` returns, and are absent together with it |
| `PhonePickerUtils.GetDialCodeOfMember` | src/phonePickerUtils.ts:21-24 | if ISO2 codes are unique, `getDialCode(c.iso2) == c.dialCode` for every country `c` |
| `PhonePickerUtils.GetCountryObjectOfMember` | src/phonePickerUtils.ts:57-63 | if no country before `c` has `c.iso2` as its ISO2 code up to case or as its dial code, `getCountryObject(c.iso2)` is `c` |
| `PhonePickerUtils.GetCountryObjectOfMemberUnique` | src/phonePickerUtils.ts:57-63 | if ISO2 codes are unique up to case and no earlier dial code equals `c.iso2`, `getCountryObject(c.iso2)` is `c` |
| `PhonePickerUtils.GetCountryObjectIgnoresCase` | src/phonePickerUtils.ts:60-61 | when the identifier and its lower-cased form match the same dial codes, `getCountryObject` gives the same result for both |
| `PhonePickerUtils.UpperAndLowerIso2Agree` | src/phonePickerUtils.ts:60-61 | `getCountryObject("US") == getCountryObject("us")` when neither string is a dial code |
| `PhonePickerUtils.GetDialCodeIsCaseSensitive` | src/phonePickerUtils.ts:22 | if no stored ISO2 code has a lower-case letter, an argument with a lower-case letter gives absent |
| `PhonePickerUtils.GetCountryFlagByDialCode` | src/phonePickerUtils.ts:31-37 | a dial code shared by several countries gives the flag of the first of them, provided no earlier ISO2 code spells it |
| `PhonePickerUtils.GetIsoCodeAgreesWithCountryObject` | src/phonePickerUtils.ts:11-14 | when no ISO2 code spells the dial code, `getIsoCode` returns the `iso2` of the record `getCountryObject` finds, and both are absent together |
| `Text.Lower` | src/components/CountryPickerModal.tsx:67-70 | `toLowerCase` keeps the length, leaves no upper-case ASCII letter, and keeps every other character where it was |
| `Text.Trim` | src/components/CountryPickerModal.tsx:65 | `trim()` is never longer than its input, neither starts nor ends with white space, and leaves a string with nothing to trim unchanged |
| `Text.TrimStart` | src/components/CountryPickerModal.tsx:65 | the result is a suffix of the input, everything dropped is white space, and the result does not start with white space |
| `Text.TrimEnd` | src/components/CountryPickerModal.tsx:65 | the result is a prefix of the input, everything dropped is white space, and the result does not end with white space |
| `Text.TrimEmptyIffBlank` | src/components/CountryPickerModal.tsx:65 | `trim()` is empty exactly when every character is white space |
| `Text.IncludesIff` | src/components/CountryPickerModal.tsx:79-84 | `includes` holds exactly when the needle occurs at some position of the haystack |
| `CountryPickerModal.GetCommonNames` | src/components/CountryPickerModal.tsx:59-61 | the table's aliases for the country's ISO2 code, and the empty list when the table has no entry for it |
| `CountryPickerModal.MatchesSearch` | src/components/CountryPickerModal.tsx:69-85 | the per-country test: name and ISO2 lower-cased and compared with the lower-cased query (exact or substring), aliases lower-cased (substring), dial code against the query as typed, query not trimmed; every country matches the empty query and every country whose dial code contains the query |
| `CountryPickerModal.MatchesSearchByPosition` | src/components/CountryPickerModal.tsx:69-85 | a country matches exactly when the lower-cased query occurs at some position of the lower-cased name, ISO2 code or one alias, or the query as typed occurs in the dial code |
| `CountryPickerModal.AnyAliasIncludesIff` | src/components/CountryPickerModal.tsx:82 | `some` over the aliases holds exactly when some lower-cased alias contains the lower-cased query |
| `CountryPickerModal.KeepMatching` | src/components/CountryPickerModal.tsx:68-86 | the result is an order-preserving subsequence of the directory; every element kept matches; every matching country is kept |
| `CountryPickerModal.FilterCountries` | src/components/CountryPickerModal.tsx:64-87 | a blank query returns the directory unchanged; otherwise a country is in the result iff it is in the directory and matches; always an order-preserving subsequence |
| `CountryPickerModal.KeepMatchingAppend` | src/components/CountryPickerModal.tsx:68 | filtering a concatenation is concatenating the filtered parts, so the filter is stable |
| `CountryPickerModal.KeepMatchingIdempotent` | src/components/CountryPickerModal.tsx:68-86 | filtering the filtered list again with the same query changes nothing |
| `CountryPickerModal.ExactChecksAreRedundant` | src/components/CountryPickerModal.tsx:74-85 | the match predicate is equivalent to the same predicate without the two exact-equality checks |
| `CountryPickerModal.NoAliasEntry` | src/components/CountryPickerModal.tsx:59-61 | a country without an alias-table entry matches only by name, ISO2 or dial code |
| `CountryPickerModal.SearchIgnoresCaseOutsideDialCode` | src/components/CountryPickerModal.tsx:67-84 | name, ISO2 and alias matching ignore the query's case; when the dial-code test gives the same answer for the query and its lower-cased form, both filter identically |
| `CountryPickerModal.BlankQueriesKeepAll` | src/components/CountryPickerModal.tsx:65 | `""`, `"   "` and `" \t\n"` all return the directory, in its order |
| `CountryPickerModal.AliasFindsUnitedStates` | src/components/CountryPickerModal.tsx:82 | the query `"usa"` finds the United States through its alias `"USA"`, and with no alias entry it does not: neither the name, the ISO2 code nor the dial code contains it |
| `CountryPickerModal.NonBlankQueryIsNotTrimmed` | src/components/CountryPickerModal.tsx:65-84 | `"+1"` finds a `+1` country whose name and code have no space, but `" +1"` does not: a non-blank query is matched untrimmed |
| `CountryPickerModal.CountryPicker.constructor` | src/components/CountryPickerModal.tsx:56 | the search text starts empty |
| `CountryPickerModal.CountryPicker.FilteredCountries` | src/components/CountryPickerModal.tsx:64-87 | the filtered list (`filteredCountries`) reads only the search text, and is a subsequence of the directory |
| `CountryPickerModal.CountryPicker.SetSearchText` | src/components/CountryPickerModal.tsx:131-132 | `setSearchText(text)` replaces the search text |
| `CountryPickerModal.CountryPicker.SelectItem` | src/components/CountryPickerModal.tsx:151-154 | the tapped item becomes the parent's selected country and is passed to `onSelectCountry` if present; the modal is closed; the search text is kept |
| `CountryPickerModal.CountryPicker.Dismiss` | src/components/CountryPickerModal.tsx:96-98 | a backdrop tap or back request closes the modal and leaves the selection alone |
| `PhonePickerInputMain.PickerInput.constructor` | src/components/PhonePickerInputMain.tsx:68-76 | the modal starts hidden; the selected country has empty name and ISO2, and the given dial code and flag (default `+1` and the US flag, lines 48-49) |
| `PhonePickerInputMain.PickerInput.SetModalVisible` | src/components/PhonePickerInputMain.tsx:68 | the setter sets `modalVisible` to its argument and changes nothing else |
| `PhonePickerInputMain.PickerInput.HandleModal` | src/components/PhonePickerInputMain.tsx:86 | `modalVisible` is negated and nothing else changes |
| `PhonePickerInputMain.PickerInput.SyncOpenCountryModal` | src/components/PhonePickerInputMain.tsx:79-83 | a defined `openCountryModal` is copied into `modalVisible`; an undefined one leaves it unchanged |
| `PhonePickerInputMain.PickerInput.HandleSelectCountry` | src/components/PhonePickerInputMain.tsx:89-92 | the selected country becomes the argument as one record; `onSelectCountry`, if present, is called once with exactly that record; `modalVisible` is untouched |
| `PhonePickerInputMain.HandleModalTwice` | src/components/PhonePickerInputMain.tsx:86 | two toggles restore the original visibility |

## Left out

- Rendering is not modelled: JSX, styles, `Modal`, `Pressable`, `FlatList`, `KeyboardAvoidingView` and `Keyboard.dismiss`. They are framework plumbing.
- The phone-number `TextInput` and its `onPhoneNumberValueChange` prop are not modelled. They pass props straight to the framework and hold no logic.
- `customModalComponent` is not modelled. When present it only replaces the rendered modal.
- `src/PhonePickerInput.tsx` is not modelled. It only chooses a `ScrollView` or `View` wrapper.
- The index files are not modelled. They only re-export.
- The contents of the country list and the alias table are not modelled. They are static data, so both are parameters.
- `Text.Lower` lower-cases ASCII letters only. JavaScript's `toLowerCase` uses full Unicode case mapping. Flags are opaque strings.
- JavaScript object lookup can also find inherited property names such as `constructor`. `GetCommonNames` treats the alias table as a plain map and ignores this.
- `useMemo` caching is not modelled. It only saves recomputation. Because the filter is a function, the same query always gives the same list.
- React's scheduling is not modelled: batching of state updates, re-renders, and when an effect runs. `SyncOpenCountryModal` stands for one run of the effect. It runs on mount and whenever `openCountryModal` changes, and it is up to the caller to invoke it then.
- Changes to `defaultCountryCode` or `defaultFlag` after the first render are not modelled. `useState` reads them only once, so they have no effect.
- `getAllCountries` and `getCountryObject` return the shared, mutable `Countries` array and its records, not copies, and `handleSelectCountry` stores and passes on that same record. The model treats the directory and its records as values, so it does not capture a host mutating them (pushing, sorting, editing a record) and thereby changing later lookups and the search list.
- `otherFlatListProps` and `otherCountrySearchTextInputProps` are not modelled. They are spread after the modal's own props, so a host can override the list's `data` and `keyExtractor`, and the search box's `value` and `onChangeText`. `CountryPicker.FilteredCountries` is the filtered list, which is what is displayed only when `data` is not overridden. `CountryPicker.SetSearchText` is what a keystroke does only when `onChangeText` is not overridden.
- `PickerInput.hasOnSelectCountry` fixes at construction whether `onSelectCountry` is present. In the component it is a prop that each render's `handleSelectCountry` reads anew, so it can appear or disappear between renders.
- What the host does inside `onSelectCountry` is not modelled. The model only records the argument of each call.
- The compiled modal's extra `setSearchText('')` on selection is not modelled. It appears only in the compiled output, not in the TypeScript source.
- `CountryPickerModal.MatchesSearch` states in its own contract only that the empty query and any query contained in the dial code match. The full equivalence is stated as two lemmas, `ExactChecksAreRedundant` and `MatchesSearchByPosition`. Attached to the predicate, it would be unfolded in every proof that mentions a match.
- `Text.Trim` does not state that its result is a contiguous slice of the input. That follows from the contracts of `TrimStart` and `TrimEnd`, which `Trim` composes.
