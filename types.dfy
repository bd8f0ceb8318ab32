/** The shared record types and the structural success/error discriminator. */
module Types {
  import opened Wrappers

  /** One detected food. Numbers are JavaScript numbers; no arithmetic is done on them here. */
  datatype FoodItem = FoodItem(
    name: string,
    estimatedPortion: string,
    calories: real,
    proteinG: real,
    carbsG: real,
    fatG: real,
    fiberG: real)

  /** Nutrition aggregated over a whole result, as the remote model reports it. */
  datatype TotalNutrition = TotalNutrition(
    calories: real,
    proteinG: real,
    carbsG: real,
    fatG: real,
    fiberG: real)

  /** A decoded reply object, seen through the keys of the two interfaces it may take: each key is
      present (`Some`) or absent (`None`). Nothing checks which keys are there when the reply is decoded. */
  datatype AIResponse = AIResponse(
    error: Option<string>,
    foods: Option<seq<FoodItem>>,
    totalNutrition: Option<TotalNutrition>,
    confidenceScore: Option<real>,
    analysisSummary: Option<string>)

  /** The JSON keys a reply object carries. */
  function PresentKeys(r: AIResponse): set<string> {
    (if r.error.Some? then {"error"} else {})
    + (if r.foods.Some? then {"foods"} else {})
    + (if r.totalNutrition.Some? then {"total_nutrition"} else {})
    + (if r.confidenceScore.Some? then {"confidence_score"} else {})
    + (if r.analysisSummary.Some? then {"analysis_summary"} else {})
  }

  /** The type guard `"error" in res`. */
  predicate IsAnalysisError(r: AIResponse): (b: bool)
    ensures b <==> "error" in PresentKeys(r)
  {
    r.error.Some?
  }

  /** `AnalysisResult`: a reply with no `error` key. Its other keys are not checked. */
  type AnalysisResult = r: AIResponse | !IsAnalysisError(r)
    witness AIResponse(None, None, None, None, None)

  /** `AnalysisError`: a reply with an `error` key. */
  type AnalysisError = r: AIResponse | IsAnalysisError(r)
    witness AIResponse(Some(""), None, None, None, None)

  /** A reply carrying all four keys of the `AnalysisResult` interface. */
  predicate HasResultKeys(r: AIResponse) {
    {"foods", "total_nutrition", "confidence_score", "analysis_summary"} <= PresentKeys(r)
  }

  /** Presence alone decides: an `error` key makes a reply an error even when every result key is there too. */
  lemma ErrorKeyWins(r: AIResponse)
    requires "error" in PresentKeys(r)
    ensures HasResultKeys(r) ==> IsAnalysisError(r)
    ensures IsAnalysisError(r)
  {
  }

  /** A reply with the four result keys and no `error` key is classified as a result. */
  lemma ResultKeysWithoutErrorIsResult(r: AIResponse)
    requires HasResultKeys(r) && "error" !in PresentKeys(r)
    ensures !IsAnalysisError(r)
  {
  }

  /** A saved analysis: the image is copied into the entry as a data URL. */
  datatype HistoryEntry = HistoryEntry(
    id: string,
    timestamp: int,
    imageUrl: string,
    result: AnalysisResult)

  /** The numeric part of a food item, as a totals record. */
  function Nutrients(item: FoodItem): TotalNutrition {
    TotalNutrition(item.calories, item.proteinG, item.carbsG, item.fatG, item.fiberG)
  }

  /** A food item made of a name, a portion and a totals record's numbers. */
  function WithNutrients(name: string, portion: string, t: TotalNutrition): FoodItem {
    FoodItem(name, portion, t.calories, t.proteinG, t.carbsG, t.fatG, t.fiberG)
  }

  /** A food item is exactly a totals record plus a name and a portion: splitting an item and putting
      it back together, or the other way round, loses and adds nothing. */
  lemma FoodItemExtendsTotals(item: FoodItem, name: string, portion: string, t: TotalNutrition)
    ensures WithNutrients(item.name, item.estimatedPortion, Nutrients(item)) == item
    ensures Nutrients(WithNutrients(name, portion, t)) == t
    ensures var made := WithNutrients(name, portion, t); made.name == name && made.estimatedPortion == portion
  {
  }

  /** Not one of the shared record types: this stands for the DOM `File` the uploader hands on, with
      its media type (`file.type`) and size in bytes. It sits here because the uploader, the analysis
      client and the orchestrator all use it. */
  datatype ImageFile = ImageFile(mediaType: string, size: nat)
}
