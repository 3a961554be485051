/**
 * The configuration values the core reads (src/config.py), as constants.
 * Values that come from the environment (the target locale, the KubeJS switch)
 * are parameters of the operations that use them instead.
 */
module Config {

  /** Strings per batch request (`BATCH_SIZE`). */
  const BatchSize: nat := 100

  /** Whether identity fallbacks are written to the cache (`CACHE_FALLBACKS`). */
  const CacheFallbacks: bool := true

  /** `RETRY_MAX_ATTEMPTS` */
  const RetryMaxAttempts: int := 6

  /** Longest string still considered text (`SAFE_MAX_LEN`). */
  const SafeMaxLen: int := 800

  /** Length above which a string is translated on its own; config.py does not set it, so the default 220 applies. */
  const ComplexTextThreshold: int := 220

  /** `TARGET_LANG` when the environment does not set it. */
  const DefaultTargetLang: string := "ru_ru"

  /** Text keys of FTB Quests `.snbt` files (`FTB_TEXT_KEYS`). */
  const FtbTextKeys: set<string> := {
    "title", "subtitle", "description", "text", "message",
    "chapter", "task", "hint", "note", "body", "book_text", "page_text"
  }

  /** The same keys in Python's `sorted` order, which is the order of the regex alternation built from them. */
  const FtbTextKeysSorted: seq<string> := [
    "body", "book_text", "chapter", "description", "hint", "message",
    "note", "page_text", "subtitle", "task", "text", "title"
  ]

  /** Text keys of generic JSON documents (`GENERIC_TEXT_KEYS`). */
  const GenericTextKeys: set<string> := {
    "title", "name", "subtitle", "text", "message", "description",
    "tooltip", "note", "hint", "summary", "landing_text", "contents"
  }
}
