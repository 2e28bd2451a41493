/** The record the whole library passes around. */
module Types {

  /** A country: its display name, ISO 3166-1 alpha-2 code, dial code
      (with its leading `+`) and flag glyph. All four are plain strings;
      nothing about their shape is checked anywhere. */
  datatype Country = Country(name: string, iso2: string, dialCode: string, flag: string)
}
