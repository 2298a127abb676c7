/** The enumerations and records the application shares between its parts. */
module Types {
  import opened Wrappers

  /** What a request asks of the text-generation service. */
  datatype TranslationMode = Autopsy | Resurrect | CurseRemoval | SoulBinding | FullRitual

  /** The progress of the main action shown by the interface. */
  datatype LoadingState =
    | Idle
    | Summoning
    | Resurrected
    | Cursed
    | AutopsyCompleted
    | ExorcismCompleted
    | BindingCompleted
    | RitualCompleted

  /** One entry of the history log ("graveyard"). */
  datatype HistoryItem = HistoryItem(
    id: string,
    timestamp: int,
    sourceLang: string,
    targetLang: string,
    preview: string,
    mode: TranslationMode,
    sourceCode: string,
    resultCode: string)

  /** A request to the text-generation service; an absent mode is `None`. */
  datatype TranslationRequest = TranslationRequest(
    sourceCode: string,
    sourceLanguage: string,
    targetLanguage: string,
    mode: Option<TranslationMode>)
}
