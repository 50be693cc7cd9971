/** The predefined model catalog that seeding inserts. */
module Catalog {
  datatype CatalogEntry = CatalogEntry(displayName: string, modelName: string)

  /** The predefined model catalog. */
  const PredefinedModels: seq<CatalogEntry> := [
    CatalogEntry("Anthropic: Claude 3.7 Sonnet", "anthropic/claude-3.7-sonnet"),
    CatalogEntry("Anthropic: Claude 3.5 Sonnet", "anthropic/claude-3.5-sonnet"),
    CatalogEntry("Anthropic: Claude Sonnet 4", "anthropic/claude-sonnet-4"),
    CatalogEntry("Anthropic: Claude Opus 4", "anthropic/claude-opus-4"),
    CatalogEntry("Anthropic: Claude 3 Opus", "anthropic/claude-3-opus"),
    CatalogEntry("OpenAI: GPT-4.1", "openai/gpt-4.1"),
    CatalogEntry("OpenAI: GPT-4.1 Mini", "openai/gpt-4.1-mini"),
    CatalogEntry("OpenAI: GPT-4.1 Nano", "openai/gpt-4.1-nano"),
    CatalogEntry("OpenAI: o3", "openai/o3"),
    CatalogEntry("OpenAI: o3 Mini", "openai/o3-mini"),
    CatalogEntry("OpenAI: o3 Mini High", "openai/o3-mini-high"),
    CatalogEntry("OpenAI: o4 Mini", "openai/o4-mini"),
    CatalogEntry("Google: Gemini 2.5 Flash", "google/gemini-2.5-flash"),
    CatalogEntry("Google: Gemini 2.5 Pro", "google/gemini-2.5-pro")
  ]
}
