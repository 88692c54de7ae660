/** The static table of display names for the member states' codes. */
module Countries {
  import opened History

  const CountryNames: map<CountryCode, string> := map[
    "at" := "Austria",
    "be" := "Belgium",
    "bg" := "Bulgaria",
    "cy" := "Cyprus",
    "cz" := "Czech Republic",
    "de" := "Germany",
    "dk" := "Denmark",
    "ee" := "Estonia",
    "gr" := "Greece",
    "es" := "Spain",
    "fi" := "Finland",
    "fr" := "France",
    "hr" := "Croatia",
    "hu" := "Hungary",
    "ie" := "Ireland",
    "it" := "Italy",
    "lt" := "Lithuania",
    "lu" := "Luxembourg",
    "lv" := "Latvia",
    "mt" := "Malta",
    "nl" := "Netherlands",
    "pl" := "Poland",
    "pt" := "Portugal",
    "ro" := "Romania",
    "se" := "Sweden",
    "si" := "Slovenia",
    "sk" := "Slovakia"
  ]

  /** The name shown for a code: its table entry, or the code itself when
      the table has none. */
  function DisplayName(code: CountryCode): (name: string)
    ensures code !in CountryNames ==> name == code
    ensures code in CountryNames ==> name == CountryNames[code] && name != ""
  {
    if code in CountryNames && CountryNames[code] != "" then CountryNames[code] else code
  }
}
