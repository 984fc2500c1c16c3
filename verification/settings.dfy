/** The configuration constants of `app/config.py` that the modelled core
    reads. Values are the defaults; the environment-loading is not modelled. */
module Settings {
  const RagTopK: int := 4
  const OpenAiApiKey: string := ""
  const ChatModel: string := "gpt-4.1-mini"
  const EmbeddingModel: string := "text-embedding-3-small"

  /** The refusal text the system prompt mandates and the evaluation uses
      when nothing is retrieved. */
  const RefusalText: string := "I can only answer from the provided PDF documents."
}
