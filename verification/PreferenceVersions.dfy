/** Row versions as decimal text: `parse_version` of the notification preferences and the text it accepts. */
module PreferenceVersions {
  import opened Dicts
  import opened Keys

  const MAX_VERSION: int := 0x7FFF_FFFF_FFFF_FFFF

  /** `[1-9][0-9]{0,18}` */
  predicate WellFormedVersion(text: string) {
    1 <= |text| <= 19 && text[0] != '0' && AllDigits(text)
  }

  function ParseVersion(text: string): Option<int> {
    if WellFormedVersion(text) && Number(text) <= MAX_VERSION then Some(Number(text)) else None
  }

  /** A text is accepted exactly when it is the decimal form of a version, so the version shown is the one to send. */
  lemma VersionsRoundTrip(text: string, version: int)
    ensures ParseVersion(text) == Some(version) <==> 0 < version <= MAX_VERSION && text == Decimal(version)
  {
    if WellFormedVersion(text) {
      DecimalOfNumber(text);
    }
    if 0 < version <= MAX_VERSION {
      NumberOfDecimal(version);
      NineteenDigits();
      DecimalBelow(version, 19);
    }
  }
}
