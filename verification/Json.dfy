/**
 * Values as JSON.parse hands them over. Property names the planner reads are constructors;
 * any other name is carried as it is.
 */
module Json {

  datatype Key =
    | KSchemaVersion | KMetadata | KLabels | KTimeline | KMigrations | KTheme | KLayout | KExport
    | KTitle | KSubtitle | KShowTitle | KShowSubtitle | KShowCategories | KCategoryDisplay
    | KUsingNow | KReplacedPlanned | KIndependent | KProprietary
    | KViewDate | KFullDateFormat
    | KId | KCategoryLabel | KCategoryIcon | KDate | KDatePrecision | KDisplayPrecision
    | KSource | KReplacement | KLabel | KCategory | KIcons | KName | KDataUrl
    | KBackground | KText | KSecondaryText | KTransparent
    | KWidthMode | KWidth | KHeight | KOuterMargin | KNodeSpacing | KTextScale
    | KMinNodeWidth | KIconSize | KLaneSeparation | KCurveTension | KShowSafeArea | KSimulateSquareCrop
    | KFilename
    | KProjects | KActiveId | KExample | KDoc | KUpdatedAt
    | KOther(name: string)

  /** A numeral too large for a number parses to an infinity. */
  datatype Number = Finite(value: real) | Infinite

  datatype Json =
    | JNull
    | JBool(flag: bool)
    | JNumber(number: Number)
    | JString(text: string)
    | JArray(items: seq<Json>)
    | JObject(fields: map<Key, Json>)

  /** Reading a property; what is missing reads like null everywhere in the validator. */
  function Get(value: Json, key: Key): Json {
    if value.JObject? && key in value.fields then value.fields[key] else JNull
  }
}
