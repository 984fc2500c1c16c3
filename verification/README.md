# A Dafny model of the Gen-AI-Project RAG chatbot core

The repository is a retrieval-augmented call-centre chatbot. PDFs are cut
into overlapping character windows and embedded into a Chroma collection.
A question is embedded, the nearest chunks are retrieved, and an OpenAI chat
model answers from them. An offline script scores retrieval and answers
against a ground-truth file.

This project models the sequential logic behind the provider, database and
web plumbing:

- **`Chunker`** (`split_text`). This is the sliding window over the stripped
  text and the final blank-window filter. It also holds the configuration
  check the source lacks.
- **`Scoring`**, **`Aggregates`** and **`Evaluation`** (`evaluate_and_save`).
  They cover:
  - order-preserving source de-duplication;
  - hit@1/3/4, rank, reciprocal rank and the precision proxy;
  - tokenisation, overlap and coverage ratios;
  - the grounded and refusal flags;
  - `_safe_mean` and `_p95`;
  - the fixed table of twenty metrics;
  - the loop over the ground-truth rows.

  Ratios are exact `real`s.
- **`Rag`** (`RAGService`). It covers the API-key check, the `rag_top_k`
  delegation of retrieval, the context, system prompt and message
  assembly, and the reply fallback. The embedding and completion providers
  are function parameters.
- **`Store`** (`ChromaStore`). The five collections are immutable maps from
  id to record, and each operation maps one state to the next. Generated
  ids and timestamps are parameters.
- **`SeedUser`** (`seed_user`). This is the three-way branch over the store,
  with `hash_password` as a parameter.
- **`Text`**, **`Sorting`**, **`Common`** and **`Settings`** hold the shared
  pieces:
  - Python's `strip`, `lower`, substring `in`, `join`, slicing and `index`;
  - a stable insertion sort with its permutation and order proofs;
  - optional and result types;
  - the configuration defaults of `app/config.py` the core reads.

## Model

| member | source | states |
|---|---|---|
| Text.Strip | Gen-AI-Project-main/scripts/ingest_data.py:12 | The result is the slice of the input after its leading whitespace. Every character outside that slice is whitespace. It is empty exactly when the input is blank. Otherwise it starts and ends with a non-whitespace character. |
| Text.Lower | Gen-AI-Project-main/scripts/evaluate_rag.py:17 | Lowering keeps the length and maps every character on its own: ASCII capitals go to lower case and everything else is kept. |
| Text.LowerAppend | Gen-AI-Project-main/scripts/evaluate_rag.py:127 | Lowering distributes over concatenation. |
| Text.SubstringAt | Gen-AI-Project-main/scripts/evaluate_rag.py:127 | A pattern found at any index counts as `p in s`. |
| Text.SubstringIndex | Gen-AI-Project-main/scripts/evaluate_rag.py:127 | Whenever `p in s` holds, there is an index of `s` at which `p` occurs as a slice. |
| Text.SubstringIff | Gen-AI-Project-main/scripts/evaluate_rag.py:127 | `p in s` holds exactly when `p` occurs as a slice of `s` at some index. |
| Text.JoinAppend | Gen-AI-Project-main/app/rag.py:30-32 | Joining one more part onto a non-empty list appends the separator and that part, so the parts appear in list order. |
| Text.JoinLength | Gen-AI-Project-main/app/rag.py:30-32 | A join is empty for no parts. Otherwise its length is the parts' total length plus one separator per adjacent pair. |
| Text.SliceTo | Gen-AI-Project-main/scripts/evaluate_rag.py:89-93 | `xs[:k]` is a prefix of `xs`. For `k >= 0` its length is `k` capped at the list's length. For negative `k` it is `-k` elements shorter than the list, and empty when that would be negative. |
| Text.IndexOf | Gen-AI-Project-main/scripts/evaluate_rag.py:93 | `xs.index(x)` is a position holding `x` with no earlier occurrence of `x`. |
| Chunker.WindowsFrom | Gen-AI-Project-main/scripts/ingest_data.py:13-18 | There are no windows exactly when the start is at or past the end. Every window is a non-empty in-text range of at most `size` characters. All but the last are exactly `size` long. Each next window starts `overlap` characters before its predecessor ends and ends strictly later. |
| Chunker.WindowsFromEnds | Gen-AI-Project-main/scripts/ingest_data.py:13-17 | The first window starts where the loop starts and the last one ends at the end of the text. |
| Chunker.Slices | Gen-AI-Project-main/scripts/ingest_data.py:15 | Each chunk is exactly the text under its window, one per window. |
| Chunker.KeepNonBlank | Gen-AI-Project-main/scripts/ingest_data.py:19 | A chunk is kept exactly when it is an input chunk that is not blank, and the filter never lengthens the list. |
| Chunker.KeepNonBlankAppend | Gen-AI-Project-main/scripts/ingest_data.py:19 | Filtering a concatenation concatenates the filtered parts, so the kept chunks stay in their original order. |
| Chunker.SlicesFromWindows | Gen-AI-Project-main/scripts/ingest_data.py:13-18 | The chunks produced one loop iteration at a time are exactly the texts under the windows. |
| Chunker.WindowTexts | Gen-AI-Project-main/scripts/ingest_data.py:10-18 | The loop (a method whose invariant carries the proof) collects exactly the window texts of the stripped text, in window order. |
| Chunker.RawChunks | Gen-AI-Project-main/scripts/ingest_data.py:10-18 | Before the filter, the chunks are the window texts over `text.strip()`. |
| Chunker.SplitText | Gen-AI-Project-main/scripts/ingest_data.py:9-19 | The result is the filtered window texts of the stripped input. Every chunk is non-blank and at most `chunk_size` long. Blank input gives no chunks. |
| Chunker.DropSharedFrom | Gen-AI-Project-main/scripts/ingest_data.py:14-18 | The windows after the first, each minus its first `overlap` characters, spell out the rest of the text after the first window. |
| Chunker.RebuildRawChunks | Gen-AI-Project-main/scripts/ingest_data.py:12-18 | Before the filter, the first window in full followed by every later window minus its first `overlap` characters is the stripped text. |
| Chunker.RebuildWindows | Gen-AI-Project-main/scripts/ingest_data.py:14-18 | The same reconstruction holds for any text. |
| Chunker.WindowsSpanText | Gen-AI-Project-main/scripts/ingest_data.py:13-17 | On a non-empty stripped text there is a window, the first starts at 0 and the last ends at the text's length. |
| Chunker.ConsecutiveWindowsShare | Gen-AI-Project-main/scripts/ingest_data.py:16-18 | Starts strictly increase. A non-final window is `size` long. Its last `overlap` characters are the first `overlap` characters of the next window. |
| Chunker.ExampleSlices | Gen-AI-Project-main/scripts/ingest_data.py:13-18 | With two-character windows and no overlap, "ab  cd" gives the windows "ab", "  ", "cd". |
| Chunker.ExampleFilter | Gen-AI-Project-main/scripts/ingest_data.py:19 | The filter keeps "ab" and "cd" and drops the interior blank window. |
| Chunker.FilterBreaksRebuild | Gen-AI-Project-main/scripts/ingest_data.py:19 | After the filter, "ab  cd" no longer reconstructs, so reconstruction holds only before the filter. |
| Chunker.NextStart | Gen-AI-Project-main/scripts/ingest_data.py:14-18 | The loop step, unchecked: it stops exactly when the window reaches the end of the text. |
| Chunker.StepAdvancesIffOverlapBelowSize | Gen-AI-Project-main/scripts/ingest_data.py:14-18 | A step that does not reach the end of the text moves the start forward exactly when `overlap < chunk_size`, for any integer size and overlap. |
| Chunker.HaltsWhenAdvancing | Gen-AI-Project-main/scripts/ingest_data.py:13-18 | With `overlap < chunk_size` (either may be negative) the loop leaves its `while` within `len(text) - start` iterations. |
| Chunker.StallsAtZero | Gen-AI-Project-main/scripts/ingest_data.py:13-18 | With `overlap >= chunk_size` and a non-empty stripped text longer than `chunk_size`, the loop restarts at 0 and never leaves its `while`, however many iterations are allowed. |
| Chunker.SplitTextHaltsIff | Gen-AI-Project-main/scripts/ingest_data.py:13-18 | `split_text` halts exactly unless the stripped text is non-empty and longer than `chunk_size` and `overlap >= chunk_size`. |
| Chunker.StallsWhenOverlapReachesSize | Gen-AI-Project-main/scripts/ingest_data.py:13-18 | With `overlap >= chunk_size` and text left beyond the window, the next start is `max(0, start + size - overlap)`, which is not after the current start, so the loop never advances. |
| Chunker.DefaultSizeFullOverlapStalls | Gen-AI-Project-main/scripts/ingest_data.py:13-18 | With `chunk_size = overlap = 1000`, a 1001-character text restarts at 0 forever. |
| Chunker.SplitChecked | Gen-AI-Project-main/scripts/ingest_data.py:9-19 | The corrected chunker fails exactly on a configuration outside `0 < chunk_size` and `0 <= overlap < chunk_size`. That covers every configuration on which the loop can stall, and also terminating ones with gapped windows (negative overlap) or empty or end-relative windows (`chunk_size <= 0`). Otherwise it returns the chunks `split_text` returns. |
| Sorting.Sort | Gen-AI-Project-main/scripts/evaluate_rag.py:27 | Sorting returns a permutation (same multiset, same length) of the input that is ordered by the given total preorder. |
| Sorting.CountSort | Gen-AI-Project-main/scripts/evaluate_rag.py:27 | Sorting keeps the number of elements satisfying any predicate. |
| Sorting.KeyOrderTotalPreorder | Gen-AI-Project-main/app/chroma_store.py:159 | Comparing records by a string key, ascending or descending, is a total preorder, so sorting by timestamps is well defined. |
| Aggregates.SafeMean | Gen-AI-Project-main/scripts/evaluate_rag.py:20-21 | The mean is 0 for an empty list. Otherwise the mean times the count is the sum. |
| Aggregates.MeanBounds | Gen-AI-Project-main/scripts/evaluate_rag.py:20-21 | Values in `[lo, hi]` with `lo <= 0 <= hi` have their mean in `[lo, hi]`. |
| Aggregates.MeanMonotone | Gen-AI-Project-main/scripts/evaluate_rag.py:20-21 | Raising values pointwise cannot lower the mean. |
| Aggregates.MeanExample | Gen-AI-Project-main/scripts/evaluate_rag.py:20-21 | The mean of 2, 4, 6, 8 is 5. |
| Aggregates.Ceil95 | Gen-AI-Project-main/scripts/evaluate_rag.py:28 | This is the least natural number `c` with `20c >= 19n`, i.e. `ceil(0.95 n)` in exact arithmetic. |
| Aggregates.P95Index | Gen-AI-Project-main/scripts/evaluate_rag.py:28 | For a non-empty list of n values the clamped index is below n and is one less than the ceiling of 0.95 n. |
| Aggregates.P95IndexExamples | Gen-AI-Project-main/scripts/evaluate_rag.py:28 | The index is 0 for one value, 18 for twenty values and 94 for a hundred values. |
| Aggregates.P95 | Gen-AI-Project-main/scripts/evaluate_rag.py:24-29 | The result is 0 for an empty list and otherwise one of the inputs. |
| Aggregates.SortedRank | Gen-AI-Project-main/scripts/evaluate_rag.py:27-29 | In a sorted list, at least `k + 1` elements are at most the element at index `k`, and at least `n - k` are at least it. |
| Aggregates.P95Rank | Gen-AI-Project-main/scripts/evaluate_rag.py:24-29 | The percentile is an order statistic: at least `ceil(0.95 n)` inputs are at most it, and at least `n - ceil(0.95 n) + 1` are at least it. |
| Aggregates.P95Bounds | Gen-AI-Project-main/scripts/evaluate_rag.py:24-29 | The percentile of a non-empty list lies between any lower and upper bound of its values. |
| Aggregates.AggregatesBounded | Gen-AI-Project-main/scripts/evaluate_rag.py:20-29 | Values in `[lo, hi]` with `lo <= 0 <= hi` put both the mean and the percentile in `[lo, hi]`. |
| Aggregates.P95OfFewIsMax | Gen-AI-Project-main/scripts/evaluate_rag.py:24-29 | With fewer than twenty values, no input exceeds the percentile. |
| Aggregates.P95IsMax | Gen-AI-Project-main/scripts/evaluate_rag.py:24-29 | With fewer than twenty values, the percentile equals the maximum. |
| Scoring.WordPrefix | Gen-AI-Project-main/scripts/evaluate_rag.py:17 | This is the length of the maximal leading run of `[a-zA-Z0-9]` characters. |
| Scoring.Words | Gen-AI-Project-main/scripts/evaluate_rag.py:17 | Every match of `[a-zA-Z0-9]+` is non-empty and made of word characters. |
| Scoring.WordsOfLowercase | Gen-AI-Project-main/scripts/evaluate_rag.py:17 | In a text without capitals, every match consists of `[a-z0-9]` only. |
| Scoring.Tokenize | Gen-AI-Project-main/scripts/evaluate_rag.py:16-17 | Every token is a non-empty string of lower-case letters and digits. |
| Scoring.WordsSplit | Gen-AI-Project-main/scripts/evaluate_rag.py:17 | A non-word character separates the matches: those of `a + c + b` are those of `a` followed by those of `b`. |
| Scoring.TokenizeSplit | Gen-AI-Project-main/scripts/evaluate_rag.py:16-17 | Tokenising two texts joined by a space gives the union of their token sets. |
| Scoring.TokenizeWord | Gen-AI-Project-main/scripts/evaluate_rag.py:16-17 | A single lower-case alphanumeric word tokenises to itself alone. |
| Scoring.TokenizeEmpty | Gen-AI-Project-main/scripts/evaluate_rag.py:16-17 | The empty text has no tokens. |
| Scoring.SeparatedKeywordNeverMatches | Gen-AI-Project-main/scripts/evaluate_rag.py:75 | A keyword that is empty or holds a character outside `[a-z0-9]` (for instance a multi-word phrase) is never among an answer's tokens, because keywords are lowered but never tokenised. |
| Scoring.FirstOccurrencesExtend | Gen-AI-Project-main/scripts/evaluate_rag.py:85 | Appending an element keeps the first-occurrence listing, provided it is appended exactly when it is new. |
| Scoring.Dedup | Gen-AI-Project-main/scripts/evaluate_rag.py:85 | The result has no duplicates, has the same elements as the input, is no longer, and lists elements in the order of their first occurrence. |
| Scoring.TopSource | Gen-AI-Project-main/scripts/evaluate_rag.py:86 | There is no top source exactly when the unique list is empty. Otherwise it is the first unique source. |
| Scoring.HitsOrdered | Gen-AI-Project-main/scripts/evaluate_rag.py:88-90 | hit@1 <= hit@3 <= hit@4 <= 1, all 0 without a non-empty expected source. hit@1 is 1 exactly when the expected source heads the unique list. |
| Scoring.SourceRank | Gen-AI-Project-main/scripts/evaluate_rag.py:92-96 | There is a rank exactly when the expected source is present, non-empty and within `unique[:top_k]`. Then it is the 1-based position of its first occurrence there. |
| Scoring.ReciprocalRank | Gen-AI-Project-main/scripts/evaluate_rag.py:94-97 | The value lies in [0, 1]. It is 0 without a rank and `1/rank > 0` with one. |
| Scoring.PrecisionAtK | Gen-AI-Project-main/scripts/evaluate_rag.py:130-132 | The value lies in [0, 1]. It is 0 when the expected source is outside `unique[:top_k]`, else `1 / max(1, min(top_k, len(unique)))`. |
| Scoring.PrecisionWithinReciprocalRank | Gen-AI-Project-main/scripts/evaluate_rag.py:92-132 | For a non-empty expected source, precision is positive exactly when there is a rank, and it never exceeds the reciprocal rank. |
| Scoring.EmptyExpectedSourceStillScoresPrecision | Gen-AI-Project-main/scripts/evaluate_rag.py:130-132 | An empty expected source scores no hit and no rank, yet earns precision when a retrieved source is itself empty: the precision formula does not test `if expected_source`. |
| Scoring.FoundSecondExample | Gen-AI-Project-main/scripts/evaluate_rag.py:88-97 | A source found second scores hit@1 = 0, hit@3 = hit@4 = 1, rank 2 and reciprocal rank 0.5. |
| Scoring.SetRatio | Gen-AI-Project-main/scripts/evaluate_rag.py:119-124 | The ratio lies in [0, 1] and is 0 for an empty base. It is 1 exactly when the base is non-empty and contained in the other set. |
| Scoring.SetRatioValue | Gen-AI-Project-main/scripts/evaluate_rag.py:119-124 | The ratio times the base size is the number of shared elements. It is 0 exactly when nothing is shared. |
| Scoring.AnswerContextOverlap | Gen-AI-Project-main/scripts/evaluate_rag.py:119-121 | The overlap lies in [0, 1] and is 0 for an answer without tokens. It is 1 exactly when the answer has tokens and all of them occur in the context. |
| Scoring.KeywordCoverage | Gen-AI-Project-main/scripts/evaluate_rag.py:122-124 | The coverage lies in [0, 1] and is 0 without keywords. It is 1 exactly when every lowered keyword is an answer token. |
| Scoring.IsGrounded | Gen-AI-Project-main/scripts/evaluate_rag.py:126 | The flag is 1 exactly when the answer is non-blank and the overlap is at least 0.15. |
| Scoring.IsRefusal | Gen-AI-Project-main/scripts/evaluate_rag.py:127 | The flag is 1 exactly when the lowered fallback text occurs in the lowered answer. |
| Scoring.RefusalDetected | Gen-AI-Project-main/scripts/evaluate_rag.py:127 | Any answer containing the fallback text is flagged as a refusal. |
| Scoring.RefusalTextIsRefusal | Gen-AI-Project-main/scripts/evaluate_rag.py:127 | The fallback text itself is flagged as a refusal. |
| Scoring.NoContextNoOverlap | Gen-AI-Project-main/scripts/evaluate_rag.py:119-121 | No answer overlaps an empty context. |
| Store.SeedPromptTemplates | Gen-AI-Project-main/app/chroma_store.py:34-74 | Afterwards the template ids are exactly the three persona ids, each stored with its text, name and time, whatever existed before. Nothing else changes. |
| Store.SeedIdempotent | Gen-AI-Project-main/app/chroma_store.py:64-74 | Seeding twice equals seeding once (at the later time). |
| Store.View | Gen-AI-Project-main/app/chroma_store.py:83-89 | The view keeps the id. A missing name becomes "Template" and a missing document becomes "". |
| Store.GetPromptTemplate | Gen-AI-Project-main/app/chroma_store.py:93-103 | There is a result exactly when the id is given, non-empty and stored. The result is the stored template's view. |
| Store.SeededTemplatesResolve | Gen-AI-Project-main/app/chroma_store.py:34-103 | After seeding, exactly the three persona ids resolve, each to its own name and text. |
| Store.ListPromptTemplates | Gen-AI-Project-main/app/chroma_store.py:76-91 | The list holds one view per stored template: every entry is the view of a stored id, and every stored id appears. |
| Store.GetUserByUsername | Gen-AI-Project-main/app/chroma_store.py:140-146 | A user is found exactly when one has that username. It is a stored user with that name, stored under its own id in a valid store. |
| Store.GetUserById | Gen-AI-Project-main/app/chroma_store.py:148-154 | A user is found exactly when the id is stored, and in a valid store it carries that id. |
| Store.CreateUser | Gen-AI-Project-main/app/chroma_store.py:105-124 | An existing username returns its user and leaves the store unchanged. Otherwise exactly one user with the new id, that username, hash and full name is added and nothing else changes. Usernames stay unique and the name exists afterwards. |
| Store.UpdateUserPassword | Gen-AI-Project-main/app/chroma_store.py:126-138 | The result is true exactly when the username exists. If false, nothing changes. In a valid store only that user's `password_hash` changes, and validity is preserved. |
| Store.ListChats | Gen-AI-Project-main/app/chroma_store.py:156-160 | The list holds exactly the user's chats, each once, in non-increasing `updated_at` order. |
| Store.CreateChat | Gen-AI-Project-main/app/chroma_store.py:162-178 | Exactly one chat is added, owned by `user_id`, with the given title and `created_at == updated_at`. Nothing else changes. |
| Store.GetChat | Gen-AI-Project-main/app/chroma_store.py:180-185 | A chat is found exactly when the id is stored, and in a valid store it carries that id. |
| Store.UpdateChat | Gen-AI-Project-main/app/chroma_store.py:187-193 | The stored chat with that id is replaced and every other record is kept. An unknown id changes nothing. |
| Store.DerivedTitle | Gen-AI-Project-main/app/chroma_store.py:226 | Content of at most 60 characters is the title. Longer content gives its first 60 characters followed by "...". |
| Store.AddMessage | Gen-AI-Project-main/app/chroma_store.py:195-229 | Exactly one message is added, with `sources` defaulting to []. A missing chat leaves the chats unchanged. An existing chat gets the new `updated_at` and keeps its id, owner and creation time. Its title becomes the derived title exactly when it was "New Chat" and the role is "user". |
| Store.ListMessages | Gen-AI-Project-main/app/chroma_store.py:231-235 | The list holds exactly the chat's messages, each once, in non-decreasing `created_at` order. |
| Store.ClearDocuments | Gen-AI-Project-main/app/chroma_store.py:237-241 | The document collection becomes empty and the other collections are untouched. |
| Store.AddDocumentChunk | Gen-AI-Project-main/app/chroma_store.py:243-249 | Exactly one chunk with that source, text and embedding is added. Nothing else changes. |
| Store.QueryDocumentChunks | Gen-AI-Project-main/app/chroma_store.py:251-271 | The result has as many items as the shortest of the three result lists in the store's order. Each has its document and distance, and its metadata source or "unknown.pdf" when that is absent. |
| SeedUser.SeedUser | Gen-AI-Project-main/scripts/seed_user.py:5-17 | An existing user without `update_if_exists` leaves the store unchanged. With it, only that user's hash becomes `hash_password(password)`. An absent user is created with the hashed password and full name. The user exists afterwards and every other user is untouched. |
| Rag.NewService | Gen-AI-Project-main/app/rag.py:8-11 | Construction fails with "OPENAI_API_KEY is not configured" exactly when the key is empty. |
| Rag.DefaultSettingsRejectService | Gen-AI-Project-main/app/config.py:15 | With the default (empty) key the service cannot be built. |
| Rag.ContextBlock | Gen-AI-Project-main/app/rag.py:31 | A chunk's block is never empty. |
| Rag.ContextBlocks | Gen-AI-Project-main/app/rag.py:30-32 | There is one block per chunk, in chunk order. |
| Rag.BuildContextAppend | Gen-AI-Project-main/app/rag.py:30-32 | One more chunk appends a blank line and its "Source:" block to a non-empty context, so the blocks appear in chunk order. |
| Rag.BuildContextShape | Gen-AI-Project-main/app/rag.py:30-32 | The context is empty exactly when there are no chunks. Its length is the blocks' total plus two per separator. One chunk gives its block alone. |
| Rag.SystemPromptShape | Gen-AI-Project-main/app/rag.py:33-40 | The prompt starts with the base text. It is the base text alone exactly when no non-empty template is given. Otherwise the header follows and the prompt ends with the template verbatim. |
| Rag.UserContentShape | Gen-AI-Project-main/app/rag.py:46-56 | The user message shows "No relevant context found." when the context is empty, and the context otherwise. It ends with the instruction and the question verbatim. |
| Rag.BuildMessages | Gen-AI-Project-main/app/rag.py:42-57 | There are `len(history) + 2` messages: the system message, the history with roles, contents and order kept, then the user message. |
| Rag.AnswerRequestShape | Gen-AI-Project-main/app/rag.py:23-63 | The request uses `gpt-4.1-mini` at temperature 0.2 and holds the system prompt, the history, and a last user message. That message ends with the question and shows the placeholder exactly when there are no chunks. |
| Rag.GenerateAnswer | Gen-AI-Project-main/app/rag.py:59-64 | The answer is the provider's reply when non-empty, otherwise "I could not generate a response.", so it is never empty. |
| Evaluation.Sources | Gen-AI-Project-main/scripts/evaluate_rag.py:84 | There is one source per retrieved chunk, in order. |
| Evaluation.ContextTextAppend | Gen-AI-Project-main/scripts/evaluate_rag.py:99 | One more chunk appends a blank line and its text to a non-empty context text, so the texts appear in chunk order. |
| Evaluation.ContextText | Gen-AI-Project-main/scripts/evaluate_rag.py:99 | The context text is empty for no chunks and is the chunk text alone for one chunk. |
| Evaluation.EvalAnswer | Gen-AI-Project-main/scripts/evaluate_rag.py:101-110 | The answer is never empty. With no chunks it is the fallback refusal text. Otherwise it is the provider's reply to a prompt with empty history and the template's text, or the generation fallback. |
| Evaluation.DedupHead | Gen-AI-Project-main/scripts/evaluate_rag.py:85-86 | The unique list of a non-empty source list starts with its first source. |
| Evaluation.UniqueSources | Gen-AI-Project-main/scripts/evaluate_rag.py:84-86 | The unique sources have no duplicates and the same elements as the retrieved sources. The top source is the first chunk's source, or none without chunks. |
| Evaluation.ScoreRetrieval | Gen-AI-Project-main/scripts/evaluate_rag.py:84-132 | The scores satisfy all of: ordered 0/1 hits, all 0 without an expected source; a rank exactly when the expected source is in `unique[:top_k]`, at its 1-based position; reciprocal rank `1/rank` or 0; precision in [0, 1]. |
| Evaluation.ScoreAnswer | Gen-AI-Project-main/scripts/evaluate_rag.py:115-128 | The flags are 0/1 and the overlap and coverage lie in [0, 1]. |
| Evaluation.AnswerFlags | Gen-AI-Project-main/scripts/evaluate_rag.py:126-128 | Non-empty means non-blank. Grounded means non-blank with overlap >= 0.15. Refusal means the lowered fallback text occurs in the lowered answer. |
| Evaluation.ScoreQuestion | Gen-AI-Project-main/scripts/evaluate_rag.py:142-165 | A question's record is well formed and carries the row's id, the stripped question, the expected source and the measured latencies. |
| Evaluation.ScoreRowOf | Gen-AI-Project-main/scripts/evaluate_rag.py:72-165 | The scored record of a row is well formed, carries the row's id, stripped question and expected source, and the row's latencies. |
| Evaluation.RunQuestion | Gen-AI-Project-main/scripts/evaluate_rag.py:72-165 | One loop iteration yields exactly the row's scored record: retrieval of the stripped question at `rag_top_k`, then the answer and the scores of that retrieval. The record is well formed with its row's identity and latencies and a non-empty answer. An empty retrieval is answered with the refusal text and flagged as a refusal. |
| Evaluation.RowRetrieval | Gen-AI-Project-main/scripts/evaluate_rag.py:80-99 | A row's `retrieved_sources` are the distinct sources of the chunks the store returned at `rag_top_k`, in first-retrieved order. Its top source is the first chunk's source, `context_chars` is the length of those chunks' context text, and hit@1 is scored against those distinct sources. |
| Evaluation.SingleChunkQuery | Gen-AI-Project-main/app/chroma_store.py:251-271 | A store answer of one document with a `source` in its metadata and one distance becomes exactly that one chunk, with that source, text and distance. |
| Evaluation.SingleChunkRow | Gen-AI-Project-main/scripts/evaluate_rag.py:80-99 | When the store returns a single chunk for the question, the row lists that chunk's source alone, uses it as top source, and counts the chunk's text as the context. hit@1 is 1 exactly when an expected source is given and equals that source. |
| Evaluation.RowIgnoresTopK | Gen-AI-Project-main/scripts/evaluate_rag.py:80-128 | Two runs that differ only in `top_k` give a row the same sources, top source, answer, context length, hits and answer scores. |
| Evaluation.NothingRetrievedScoresZero | Gen-AI-Project-main/scripts/evaluate_rag.py:84-97 | Without chunks there are no unique sources, no top source, no rank, no hits, and zero reciprocal rank and precision. |
| Evaluation.RefusalAgainstNoContext | Gen-AI-Project-main/scripts/evaluate_rag.py:119-127 | The refusal text against an empty context is a refusal with no overlap and is not grounded. |
| Evaluation.NothingRetrievedIsRefused | Gen-AI-Project-main/scripts/evaluate_rag.py:99-127 | With no chunks, the answer is the fallback text, `context_chars` is 0, it is a refusal, overlap is 0, it is not grounded, and there is no source, hit or rank. |
| Evaluation.RetrievalIgnoresTopK | Gen-AI-Project-main/scripts/evaluate_rag.py:84-128 | The unique sources, top source, hit@1/3/4 and all answer scores are the same for any two `top_k` values. |
| Evaluation.ColumnOf | Gen-AI-Project-main/scripts/evaluate_rag.py:168-170 | A column has one value per question, in question order. |
| Evaluation.MetricsOf | Gen-AI-Project-main/scripts/evaluate_rag.py:32-39 | There is one metric per table row, in row order, with the row's key, label, unit and category and the row's aggregate as value. |
| Evaluation.Metrics | Gen-AI-Project-main/scripts/evaluate_rag.py:172-211 | The list has twenty metrics with the table's keys and units, independent of the questions. |
| Evaluation.MetricKeysDistinct | Gen-AI-Project-main/scripts/evaluate_rag.py:172-211 | The twenty metric keys are pairwise distinct. |
| Evaluation.UnitsFollowColumns | Gen-AI-Project-main/scripts/evaluate_rag.py:172-211 | A "ratio" metric aggregates a ratio column and an "ms" metric aggregates a latency column. |
| Evaluation.SingleQuestionHitRates | Gen-AI-Project-main/scripts/evaluate_rag.py:167-180 | With one question the count is 1, and hit@1, exact-source-match, hit@3, hit@4 and recall@4 are that question's hit flags. |
| Evaluation.MetricAliases | Gen-AI-Project-main/scripts/evaluate_rag.py:167-180 | The first metric is the question count. The exact-source-match rate equals hit@1's mean, and recall@4 equals hit@4's mean. |
| Evaluation.ColumnBounded | Gen-AI-Project-main/scripts/evaluate_rag.py:177-210 | A column within `[lo, hi]`, with `lo <= 0 <= hi`, has its mean and percentile metrics within `[lo, hi]`. |
| Evaluation.RatioValuesInUnit | Gen-AI-Project-main/scripts/evaluate_rag.py:88-132 | Every ratio column of well-formed questions lies in [0, 1]. |
| Evaluation.RatioMetricsInUnit | Gen-AI-Project-main/scripts/evaluate_rag.py:172-211 | Over well-formed questions, every "ratio" metric of any table lies in [0, 1]. |
| Evaluation.HitRatesOrdered | Gen-AI-Project-main/scripts/evaluate_rag.py:168-176 | Over well-formed questions the reported hit rates satisfy hit@1 <= hit@3 <= hit@4. |
| Evaluation.NoQuestionsAllZero | Gen-AI-Project-main/scripts/evaluate_rag.py:167-211 | With no questions every metric is 0. |
| Evaluation.LatencyValuesBounded | Gen-AI-Project-main/scripts/evaluate_rag.py:134-136 | Latencies within `[0, hi]` put every latency column within `[0, hi]`. |
| Evaluation.LatencyMetricsBounded | Gen-AI-Project-main/scripts/evaluate_rag.py:181-185 | Latencies within `[0, hi]` put every "ms" metric within `[0, hi]`. |
| Evaluation.MapRowsAt | Gen-AI-Project-main/scripts/evaluate_rag.py:72-165 | Mapping a scorer over the rows gives one entry per row, and entry `i` is the score of row `i` with `timing(i)`. |
| Evaluation.ScoredRunAt | Gen-AI-Project-main/scripts/evaluate_rag.py:72-165 | Entry `i` of a run is the scored record of row `i` with `timing(i)`. |
| Evaluation.ScoredRunRows | Gen-AI-Project-main/scripts/evaluate_rag.py:72-165 | Every record of a run is well formed and carries its row's identity and latencies. |
| Evaluation.ScoreRows | Gen-AI-Project-main/scripts/evaluate_rag.py:72-165 | The loop yields exactly the run's scored records, one per ground-truth row in row order. Each is well formed and carries its row's identity and latencies. |
| Evaluation.Records | Gen-AI-Project-main/scripts/evaluate_rag.py:220 | `per_question` has the records in question order. |
| Evaluation.EvaluateAndSave | Gen-AI-Project-main/scripts/evaluate_rag.py:42-227 | A missing ground-truth file fails and changes nothing. Otherwise the templates are seeded, and an empty API key fails. It succeeds exactly when the file is present and the key is non-empty. The report then has the given header fields and `total_metrics == 20`. `per_question` is exactly the records of the run, scored with the seeded template. `metrics` is exactly the metric table over those records: table keys in order, the row count first, every ratio in [0, 1], exact-source-match equal to hit@1, recall@4 equal to hit@4, and hit@1 <= hit@3 <= hit@4. |
| Evaluation.DefaultTemplateResolves | Gen-AI-Project-main/scripts/evaluate_rag.py:61 | After seeding, the default template id resolves to the professional persona. |

## Left out

- OpenAI embeddings and chat completions (`app/rag.py:13-18,59-63`) are function parameters, `Embedder` and `Completion`. A `None` reply is represented by the empty string, which the fallback treats the same way. `Rag.EmbedText` is a plain delegation with no contract. `Rag.FindRelevantChunks` and `Evaluation.Retrieve` are plain delegations to `Store.QueryDocumentChunks` with `rag_top_k`. What that means for an evaluation run is stated by `Evaluation.RowRetrieval` and `Evaluation.RowIgnoresTopK`.
- Providers and store queries are total functions. An embedding, completion or Chroma call that raises, and so aborts `evaluate_and_save` partway through without writing the report, is not modelled.
- Chroma persistence and nearest-neighbour ranking are left out. A query is a function parameter returning arbitrary parallel lists. The order of records in `get` results is not specified by Chroma, so listings are stated up to order, or by their sort order.
- Ids from `uuid4` and times from `_now_iso`/`datetime.now` are parameters. Freshness of a generated id is a precondition (`newId !in ...`) of `Store.CreateUser`, `Store.CreateChat`, `Store.AddMessage`, `Store.AddDocumentChunk` and `SeedUser.SeedUser`.
- `time.perf_counter` is left out: the latencies of question `i` are an input `timing(i)`. The rows' `round(..., 2|4)` and float rounding are not modelled; ratios and means are exact rationals.
- JSON reading and writing, `mkdir`, `print` and `argparse` are left out: a missing ground-truth file is `None`. The document bootstrap at `scripts/evaluate_rag.py:53-55` (ingesting PDFs when the collection is empty) and PDF extraction with pypdf are left out.
- The web layers (`app/main.py`, the Streamlit dashboard) and `app/security` (`hash_password` is a parameter) are not part of this model.
- `Text.Lower` lowers only ASCII capitals; Python's full Unicode `str.lower` is not modelled. `Text.IsSpace` lists the characters Python's `str.isspace` accepts.
- `Store.ListChats` and `Store.ListMessages` do not fix the relative order of records with equal timestamps, which Python's stable sort takes from Chroma's unspecified order.
- `Store.GetUserByUsername` returns some user with that name: Chroma's `where` query order is unspecified, and the store invariant `Valid` makes the user unique.
- `Store.Update` models Chroma's `update` of an unknown id as a no-op.
- `Chunker.SplitText` requires `0 < chunk_size` and `0 <= overlap < chunk_size`, which the source does not check. Outside this range the loop either never halts or produces chunks the model does not describe. It never halts exactly when `overlap >= chunk_size` and the stripped text is longer than `chunk_size` (`Chunker.SplitTextHaltsIff`); that is the finding below. A negative overlap halts but leaves gaps between windows. A `chunk_size <= 0` with a smaller overlap halts, with empty or end-relative Python slices. The chunk lists of these halting configurations are not modelled; `Chunker.SplitChecked` rejects them.
- `Scoring.PrecisionWithinReciprocalRank` assumes `top_k >= 0`. With a negative `top_k`, `unique[:top_k]` drops elements from the end while the denominator clamps to 1, and the lemma's inequality is not claimed.
- `Evaluation.GroundTruthRow` holds the expected keywords as strings. The `str(item)` conversion at `scripts/evaluate_rag.py:75` for non-string JSON values is not modelled.
- `SeedUser.SeedUser` takes `hash_password`, the id and the time first. `full_name` and `update_if_exists` come last, with their defaults `None` and `False`.
- `Store.SeedPromptTemplates` stamps all three templates with one `now`, where the source reads the clock once per template. The timestamps are not visible through `get_prompt_template`.
- `_metric` is the `Metric` constructor. Each unit is derived from the aggregated column, and these derived units agree with the literals at `scripts/evaluate_rag.py:173-210`.

## Findings

| source | as written | input that shows it | evidently intended | confidence | as-written member | corrected member |
|---|---|---|---|---|---|---|
| Gen-AI-Project-main/scripts/ingest_data.py:13-18 | `split_text` never checks its configuration; the next start is `max(0, end - overlap)` | `split_text("x" * 1001, chunk_size=1000, overlap=1000)`: every iteration restarts at 0, so the loop never ends. In general it never ends exactly when `overlap >= chunk_size` and the stripped text is longer than `chunk_size` | reject `chunk_size <= 0` or `overlap` outside `[0, chunk_size)` | high; not executed | Chunker.NextStart, Chunker.StallsWhenOverlapReachesSize, Chunker.DefaultSizeFullOverlapStalls, Chunker.SplitTextHaltsIff | Chunker.SplitChecked |
