/** The state of the phone input component: whether the country modal is
    visible and which country is shown on the flag button. React's
    `useState` setters become methods that reassign the fields; the
    optional `onSelectCountry` callback is observed through the list of
    countries it has been called with. */
module PhonePickerInputMain {
  import opened Wrappers
  import opened Types

  /** The `defaultCountryCode` prop's default. */
  const DefaultCountryCode: string := "+1"

  /** The `defaultFlag` prop's default, the flag of the United States
      (regional indicators U and S). */
  const DefaultFlag: string := "\U{1F1FA}\U{1F1F8}"

  class PickerInput {
    /** Whether the host passed an `onSelectCountry` callback. */
    const hasOnSelectCountry: bool

    var modalVisible: bool
    var selectedCountry: Country

    /** The arguments of every `onSelectCountry` call so far, oldest first. */
    var notified: seq<Country>

    /** First render: the modal is closed and the shown country is built
        from the two display props (or their defaults), with empty name and
        ISO2 code. The defaults are not looked up in the directory. */
    constructor (defaultCountryCode: Option<string>, defaultFlag: Option<string>, hasOnSelectCountry: bool)
      ensures !modalVisible
      ensures selectedCountry.name == "" && selectedCountry.iso2 == ""
      ensures selectedCountry.dialCode == defaultCountryCode.GetOr(DefaultCountryCode)
      ensures selectedCountry.flag == defaultFlag.GetOr(DefaultFlag)
      ensures notified == []
      ensures this.hasOnSelectCountry == hasOnSelectCountry
    {
      this.hasOnSelectCountry := hasOnSelectCountry;
      modalVisible := false;
      selectedCountry := Country("", "", defaultCountryCode.GetOr(DefaultCountryCode), defaultFlag.GetOr(DefaultFlag));
      notified := [];
    }

    /** `setModalVisible`, the setter handed down to the modal. */
    method SetModalVisible(visible: bool)
      modifies this`modalVisible
      ensures modalVisible == visible
    {
      modalVisible := visible;
    }

    /** `handleModal`: the flag button toggles the modal. */
    method HandleModal()
      modifies this`modalVisible
      ensures modalVisible == !old(modalVisible)
    {
      modalVisible := !modalVisible;
    }

    /** The effect that follows the `openCountryModal` prop: a defined value
        is copied into `modalVisible`, an undefined one leaves it alone. */
    method SyncOpenCountryModal(openCountryModal: Option<bool>)
      modifies this`modalVisible
      ensures openCountryModal.Some? ==> modalVisible == openCountryModal.value
      ensures openCountryModal.None? ==> modalVisible == old(modalVisible)
    {
      if openCountryModal.Some? {
        modalVisible := openCountryModal.value;
      }
    }

    /** `handleSelectCountry`: the shown country is replaced by `country` as
        one record, and the host, if it listens, is told exactly `country`.
        The modal's visibility is not this handler's business. */
    method HandleSelectCountry(country: Country)
      modifies this`selectedCountry, this`notified
      ensures selectedCountry == country
      ensures notified == old(notified) + (if hasOnSelectCountry then [country] else [])
      ensures modalVisible == old(modalVisible)
    {
      selectedCountry := country;
      if hasOnSelectCountry {
        notified := notified + [country];
      }
    }
  }

  /** Two presses of the flag button leave the modal as it was. */
  method HandleModalTwice(p: PickerInput)
    modifies p`modalVisible
    ensures p.modalVisible == old(p.modalVisible)
  {
    p.HandleModal();
    p.HandleModal();
  }
}
