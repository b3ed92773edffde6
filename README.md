# Slide2Learn core, modelled in Dafny

Slide2Learn turns an uploaded PowerPoint deck into study material. The Dafny
project models the parts of it that decide what the learner sees and what is
recorded about them.

Backend, one module per source file:

- `SlideClassifier`: the keyword classifier that labels each slide as process, comparison, hierarchy, definition, list or unknown.
- `ContextBuilder`: the context builder that normalises a slide into its non-blank lines, a title, points and a category.
- `SlideUpload`: `structure_slide` and the upload loop that enriches every extracted slide.
- `Router`: the study-content router. It detects a mode for "auto", rejects modes without a prompt template, and records game and quiz requests.
- `Evaluator`: the game evaluator, which reads the answer key out of the AI text and scores a player against it.
- `SessionMemory`: the per-session statistics table.

Frontend:

- `SlideStore`: the global slide store.
- `MemorizationMode`: the memorisation view. It covers slide navigation, the flashcard, parsing quiz questions out of the AI text, the fallback quiz, and the quiz's answer/score state.
- `VisualizationMode`: the mind-map view, a star graph from the slide title to its points, laid out top to bottom.

Support modules:

- `Wrappers`: `Option` and `Result`.
- `Text`: Python and JavaScript string primitives (strip/trim, `in`, `split`, lower-casing).
- `JsSplit`: JavaScript `String.prototype.split` for the four regular expressions the quiz view splits with.
- `QuizFormat`: proves that a question written in the format the backend asks the AI for parses back into that question.

Objects whose fields the source updates in place are classes with `modifies`
clauses:

- `SessionMemory.Memory` is the `SESSION_MEMORY` table.
- `SlideStore.Store` is the zustand store.
- `MemorizationMode.QuizView` is the quiz's React state.
- The upload loop works in place on an `array`.

The rest is functions and lemmas.

## Model

| member | source | states |
|---|---|---|
| SlideClassifier.ClassifySlide | backend/services/slide_classifier.py:1-15 | The label is always one of the six categories. |
| SlideClassifier.ProcessWins | backend/services/slide_classifier.py:4-5 | If any process keyword occurs in the lower-cased text, the label is "process", whatever other keywords occur. |
| SlideClassifier.VsAnywhereIsComparison | backend/services/slide_classifier.py:6-7 | Without a process keyword, "vs" anywhere (even inside a word) makes the slide a comparison. |
| SlideClassifier.DefinitionExactly | backend/services/slide_classifier.py:4-11 | "definition" is given if and only if the text starts with "what is" or contains "definition", and none of the three earlier rules fired. |
| SlideClassifier.NoKeywordLabel | backend/services/slide_classifier.py:12-15 | Without any keyword, the label is "list" exactly when the original text holds a newline, and "unknown" otherwise. |
| SlideClassifier.CaseInsensitive | backend/services/slide_classifier.py:2-13 | Texts equal after lower-casing get the same label, including the newline rule, which reads the original text. |
| ContextBuilder.KeepNonBlank | backend/mcp/context_builder.py:7 | Every kept line is non-empty and stripped, and no more lines come out than went in. |
| ContextBuilder.KeepNonBlankAppend | backend/mcp/context_builder.py:7 | The blank-line filter distributes over concatenation. |
| ContextBuilder.NonBlankLines | backend/mcp/context_builder.py:7 | Every line is non-empty and stripped. |
| ContextBuilder.LinesOfJoin | backend/mcp/context_builder.py:7 | The lines of `a + "\n" + b` are the lines of `a` followed by the lines of `b`, so input order is kept. |
| ContextBuilder.LinesOfOneLine | backend/mcp/context_builder.py:7 | A text without a newline yields its stripped self, or nothing if it is blank. |
| ContextBuilder.BuildContext | backend/mcp/context_builder.py:3-15 | The raw text is kept and the lines are the non-blank stripped lines. Title followed by points is exactly the lines. An empty text gives an empty title and no points. The category is the given one, or "unknown" when it is None or "". |
| SlideUpload.CleanPoint | backend/app.py:105 | The cleaned point is stripped and is no longer than the input. |
| SlideUpload.FilterAll | backend/app.py:105 | A filter that every element passes keeps the list unchanged. |
| SlideUpload.RestStripped | backend/app.py:101-105 | The lines after the title are non-empty and stripped. |
| SlideUpload.CleanPointsKeepsAll | backend/app.py:105 | On stripped, non-empty lines the `if p.strip()` filter drops nothing, and point `i` is the cleaned line `i`. |
| SlideUpload.DiagramType | backend/app.py:107-118 | The hint is one of the five diagram kinds or "unknown", and it is "unknown" exactly for categories outside the map. |
| SlideUpload.StructureSlideShape | backend/app.py:100-119 | The title is the first non-blank line (or ""). There is exactly one cleaned point per later non-blank line, in order. The diagram hint is the category's. |
| SlideUpload.EnrichedFields | backend/app.py:130-133 | An enriched slide keeps its number and text. Its category is the classifier's label. Its diagram hint is "unknown" exactly when the category is "unknown". |
| SlideUpload.UpdateEach | backend/app.py:130-133 | Every element of the array is replaced by the function of its old value. |
| SlideUpload.EnrichSlides | backend/app.py:130-133 | Every slide of the array is replaced by its enriched version. |
| SlideUpload.UploadPpt | backend/app.py:121-139 | The response carries the file name and a slide count equal to the number of extracted slides. Slide `i` is extracted slide `i`, enriched. |
| SessionMemory.Entry | backend/memory/session_memory.py:6-11 | A session not in the table reads as the zero entry the factory creates. |
| SessionMemory.RecordedKeepsBalance | backend/memory/session_memory.py:13-22 | Recording adds `total` attempts, `correct` right and `total - correct` wrong answers, so attempts = correct + wrong is preserved. |
| SessionMemory.RecordedWeakTopics | backend/memory/session_memory.py:24-25 | The slide becomes a weak topic if and only if fewer than all answers were right. Weak topics are never removed, and only this slide is added. |
| SessionMemory.HistoryTotals | backend/memory/session_memory.py:13-22 | After any run of attempts, the counters are the sums of the totals and of the corrects, and wrong is their difference. |
| SessionMemory.Accuracy | backend/memory/session_memory.py:33-36 | The accuracy is 0 when nothing was attempted. Otherwise it is exactly 100 · correct / attempts, and it lies between 0 and 100 when the counters are consistent. |
| SessionMemory.Memory.constructor | backend/memory/session_memory.py:6-11 | The table starts empty and valid. |
| SessionMemory.Memory.RecordAttempt | backend/memory/session_memory.py:13-25 | The session's entry, created on first use, is updated. No other session changes. Every entry stays balanced. |
| SessionMemory.Memory.GetSessionSummary | backend/memory/session_memory.py:27-44 | An unknown session gets "No data for this session", and only an unknown one does. A known session gets its counters, its weak topics and its accuracy as `Accuracy` computes it (0 when it has no attempts). |
| Router.AutoDetectMode | backend/mcp/router.py:6-18 | The detected mode always has a prompt template. |
| Router.ShortSlideMemorize | backend/mcp/router.py:10-11 | A slide of at most three lines is memorised, whatever its words. |
| Router.ProcessBeforeRevise | backend/mcp/router.py:12-15 | A slide of four or more lines that says "process" is visualised. It is revised if and only if it has at least six lines and says neither "step" nor "process". |
| Router.MidLengthModes | backend/mcp/router.py:14-18 | A four- or five-line slide without step/process is a quiz when it says "define" or "what is", and a game otherwise. |
| Router.ResolveMode | backend/mcp/router.py:20-27 | "auto" becomes the detected mode. Any other mode is accepted if and only if it is a `PROMPT_MAP` key (tools.py:105-111), and is then used unchanged. Otherwise the error is "Unsupported MCP mode: …". |
| Router.RunMcp | backend/mcp/router.py:20-43 | The response is the resolved mode with the AI output, or the unsupported-mode error. Game and quiz requests record 3 correct out of 5 under the slide title. Every other outcome leaves the session table unchanged. |
| Router.ScoredRequestEffect | backend/mcp/router.py:32-38 | A game or quiz request adds 5 attempts (3 right, 2 wrong) and marks the slide title as a weak topic. |
| Evaluator.FirstMatch | backend/mcp/evaluator.py:19 | A match has one span per group, inside the text. Nothing is found exactly when the pattern matches at no start position. |
| Evaluator.FirstMatchLeftmost | backend/mcp/evaluator.py:19-21 | When `q` is the leftmost start where the pattern matches, the first `findall` match is the one at `q`. |
| Evaluator.StrippedGroups | backend/mcp/evaluator.py:19-26 | The first `findall` match gives one stripped answer per group. The result is empty exactly when the pattern matches nowhere in the section. |
| Evaluator.LayoutGroups | backend/mcp/evaluator.py:19-24 | Answer lines `K1v1`, `K2v2`, … after white space, each on its own line and followed by the end of the text or a line break, match the pattern with each group capturing its line's value. |
| Evaluator.FillLine | backend/mcp/evaluator.py:19-21 | The section `FILL: 1=x`, `2=y`, `3=z` on three lines (followed by the end of the text or a line break) gives the fill answers `[x.strip(), y.strip(), z.strip()]`. |
| Evaluator.FindFrom | backend/mcp/evaluator.py:29 | The result is the leftmost occurrence at or after the start, and none means no occurrence. |
| Evaluator.ParseSection | backend/mcp/evaluator.py:18-31 | fill holds 0 or 3 answers and tf holds 0 or 2. |
| Evaluator.ParseGameAnswers | backend/mcp/evaluator.py:3-33 | Text without "ANSWERS:" gives the empty answers. All answers found are stripped, with 0 or 3 fill answers and 0 or 2 true/false answers. |
| Evaluator.OnlyLastSection | backend/mcp/evaluator.py:13-16 | Only the text after the last "ANSWERS:" decides the parsed answers. |
| Evaluator.RapidPresence | backend/mcp/evaluator.py:29-31 | A rapid answer is present if and only if "RAPID=" occurs in the section. |
| Evaluator.Agreements | backend/mcp/evaluator.py:39-45 | At most one point per compared position. |
| Evaluator.Score | backend/mcp/evaluator.py:35-50 | The score never exceeds 6. |
| Evaluator.PerfectScore | backend/mcp/evaluator.py:35-50 | A complete answer set scored against itself gets 6 out of 6. |
| Evaluator.ScoreSymmetric | backend/mcp/evaluator.py:35-50 | Swapping the key and the player's answers does not change the score. |
| Evaluator.ScoreGame | backend/mcp/evaluator.py:35-50 | It fails if and only if an answer list is too short or a rapid answer is missing. Otherwise it returns (Score, 6) with 0 <= score <= 6. |
| SlideStore.Store.constructor | frontend/store/useSlideStore.ts:23-27 | No slides, index -1, not loading, no file name. |
| SlideStore.Store.SetSlides | frontend/store/useSlideStore.ts:29 | The deck and file name are replaced and the index becomes 0. The loading flag is untouched. |
| SlideStore.Store.SetCurrentSlideIndex | frontend/store/useSlideStore.ts:30 | Only the index changes, to the given value, unchecked. |
| SlideStore.Store.SetIsLoading | frontend/store/useSlideStore.ts:31 | Only the loading flag changes. |
| VisualizationMode.PointIdsDistinct | frontend/components/Workspace/VisualizationMode.tsx:84 | `p-i` ids are pairwise distinct and never "root". |
| VisualizationMode.BuildGraph | frontend/components/Workspace/VisualizationMode.tsx:55-107 | A missing slide or an empty title gives no graph. Otherwise the graph is the root with the title, then node `p-i` per point `i` in order, and edge `e-i` from the root to it. Node ids are distinct and every edge joins existing nodes. |
| VisualizationMode.TopLeft | frontend/components/Workspace/VisualizationMode.tsx:40-44 | The corner plus half the 280 x 100 box is the layout centre. |
| VisualizationMode.Layout | frontend/components/Workspace/VisualizationMode.tsx:17-51 | Nodes keep their order, id and label. Each is placed 140 left of and 50 above its centre. Edges enter at the top and leave at the bottom. Edges are unchanged. |
| VisualizationMode.Visualize | frontend/components/Workspace/VisualizationMode.tsx:53-110 | The laid-out star graph of the slide: a root node and one node `p-i` per bullet, with distinct ids and each node's box centred on the layout engine's centre. Edge `e-i` runs from the root to `p-i`, and every edge joins two of the laid-out nodes. |
| MemorizationMode.PrevIndex | frontend/components/Workspace/MemorizationMode.tsx:50-52 | The index moves back one, and stays put if and only if it is already at 0 or below. |
| MemorizationMode.NextIndex | frontend/components/Workspace/MemorizationMode.tsx:54-56 | The index moves on one if and only if it is before the last slide. |
| MemorizationMode.NavigationStaysInDeck | frontend/components/Workspace/MemorizationMode.tsx:50-56 | From a slide in the deck, both buttons stay in the deck. |
| MemorizationMode.HandlePrev | frontend/components/Workspace/MemorizationMode.tsx:50-52 | The store's index becomes PrevIndex of the old one. |
| MemorizationMode.HandleNext | frontend/components/Workspace/MemorizationMode.tsx:54-56 | The store's index becomes NextIndex of the old one over the deck size. |
| MemorizationMode.ShownSummary | frontend/components/Workspace/MemorizationMode.tsx:182-189 | No summary for null or empty AI text. A text of at most 300 characters is shown whole. A longer one shows its first 300 characters then "...". |
| MemorizationMode.ShownPoints | frontend/components/Workspace/MemorizationMode.tsx:174 | A prefix of the points: at most 4 of them, exactly 4 when there are that many, and all when fewer. |
| MemorizationMode.FirstLine | frontend/components/Workspace/MemorizationMode.tsx:247 | The text up to its first line break: a prefix without a newline that is either the whole text or is followed by one. |
| MemorizationMode.CorrectOption | frontend/components/Workspace/MemorizationMode.tsx:250-254 | The correct answer is always one of the three options. |
| MemorizationMode.LetterAnywhereWins | frontend/components/Workspace/MemorizationMode.tsx:252-253 | The "b."/"b)" test looks anywhere in the answer line. An answer that repeats option A's text word for word, "Use a DB.", selects option B. |
| MemorizationMode.CutBlock | frontend/components/Workspace/MemorizationMode.tsx:233-247 | The question text and the options are trimmed, and the answer line holds no newline. |
| MemorizationMode.QuestionOf | frontend/components/Workspace/MemorizationMode.tsx:249-261 | A question is made if and only if the text and all three options are non-empty. It is then well-formed. |
| MemorizationMode.ParseBlock | frontend/components/Workspace/MemorizationMode.tsx:233-261 | A parsed question has non-empty trimmed text, three non-empty trimmed options, and a correct answer among them. |
| MemorizationMode.CorrectPrecedence | frontend/components/Workspace/MemorizationMode.tsx:250-254 | C wins whenever the answer names C. Otherwise B wins whenever it names B. Otherwise the answer is A. |
| MemorizationMode.NoHeaderNoBlocks | frontend/components/Workspace/MemorizationMode.tsx:222 | Text without any "Question:" header yields no blocks. |
| MemorizationMode.Collect | frontend/components/Workspace/MemorizationMode.tsx:224-265 | No more values are collected than there are blocks. |
| MemorizationMode.CollectAll | frontend/components/Workspace/MemorizationMode.tsx:224-265 | When every value a block gives is well-formed, every collected question is well-formed. |
| MemorizationMode.CollectStep | frontend/components/Workspace/MemorizationMode.tsx:224-265 | One more block appends exactly the value it gives, if any. |
| MemorizationMode.ParseBlocks | frontend/components/Workspace/MemorizationMode.tsx:224-265 | There are at most as many questions as blocks, and each is well-formed. |
| MemorizationMode.CollectEach | frontend/components/Workspace/MemorizationMode.tsx:224-265 | The loop pushes exactly the values of the blocks that give one, in block order. |
| MemorizationMode.ParseAiQuestions | frontend/components/Workspace/MemorizationMode.tsx:214-265 | The loop's questions are those of the blocks after each header, in order, each well-formed. |
| MemorizationMode.FallbackQuestions | frontend/components/Workspace/MemorizationMode.tsx:270-298 | Three questions. The first two carry the shuffled options, a permutation of their four options. Their correct answers are the first and the second point (or the defaults) and are among the options. The third is True/False with answer "True". |
| MemorizationMode.TopicQuestion | frontend/components/Workspace/MemorizationMode.tsx:273-282 | The options are the shuffled four. The correct answer is the first point, or "Concept A", and is among them. |
| MemorizationMode.StatementQuestion | frontend/components/Workspace/MemorizationMode.tsx:283-292 | The options are the shuffled four. The correct answer is the second point, or "It is a key concept", and is among them. |
| MemorizationMode.CategoryQuestion | frontend/components/Workspace/MemorizationMode.tsx:293-297 | The options are "True" and "False" and the answer is "True". |
| MemorizationMode.AiQuestions | frontend/components/Workspace/MemorizationMode.tsx:214-267 | Every question parsed from the AI text is well-formed. |
| MemorizationMode.QuizQuestions | frontend/components/Workspace/MemorizationMode.tsx:212-299 | Parsed AI questions when there are any. Otherwise none for a slide without points, and the fallback questions for any other slide. |
| MemorizationMode.QuizAnswerable | frontend/components/Workspace/MemorizationMode.tsx:212-299 | Every question the quiz shows has its correct answer among its options. |
| MemorizationMode.Lookup | frontend/components/Workspace/MemorizationMode.tsx:319-320 | A selection is restored if and only if an answer was recorded. |
| MemorizationMode.QuizView.constructor | frontend/components/Workspace/MemorizationMode.tsx:204-208 | First question, score 0, no result, nothing selected or recorded. |
| MemorizationMode.QuizView.HandleAnswer | frontend/components/Workspace/MemorizationMode.tsx:301-314 | Ignored once an option is selected. Otherwise it selects and records the choice, and scores one point if the choice is correct. The invariant it keeps says the score is the number of questions whose recorded answer is the correct option, so it never exceeds the number of questions. |
| MemorizationMode.QuizView.NextQuestion | frontend/components/Workspace/MemorizationMode.tsx:316-325 | It moves to the next question with its recorded answer restored. At the last question it shows the result instead. Score and history are untouched. |
| MemorizationMode.QuizView.PrevQuestion | frontend/components/Workspace/MemorizationMode.tsx:327-334 | It moves back one question with its recorded answer restored, and does nothing at the first one. |
| MemorizationMode.RecordAnswer | frontend/components/Workspace/MemorizationMode.tsx:301-314 | Recording a first answer adds one to the count of correct answers exactly when the chosen option is the correct one. |
| MemorizationMode.NothingAnswered | frontend/components/Workspace/MemorizationMode.tsx:204-208 | With no answers recorded, the count of correct answers is 0. |
| MemorizationMode.QuizView.Retry | frontend/components/Workspace/MemorizationMode.tsx:347 | Every field returns to its initial value. |
| JsSplit.MatchAt | frontend/components/Workspace/MemorizationMode.tsx:228-231 | A delimiter match is never empty and stays inside the text. |
| JsSplit.SplitNoMatch | frontend/components/Workspace/MemorizationMode.tsx:233 | A text in which the delimiter never matches is returned whole. |
| JsSplit.SplitOnce | frontend/components/Workspace/MemorizationMode.tsx:233 | With exactly one match, the pieces are the text before it and the text after it. |
| QuizFormat.SplitOptionA | frontend/components/Workspace/MemorizationMode.tsx:233-235 | A formatted block splits at the "A)" line into the question and the rest. |
| QuizFormat.SplitAnswer | frontend/components/Workspace/MemorizationMode.tsx:245-247 | The last piece splits at "Correct Answer:" into option C and the answer line. |
| QuizFormat.CutFormatBlock | frontend/components/Workspace/MemorizationMode.tsx:233-247 | Cutting a formatted block gives back exactly the question, the three options and the answer text. |
| QuizFormat.FormatRoundTrip | backend/services/gemini_service.py:55-60 | A question written in the requested format parses back to that question, its three options, and the option the answer line names. |
| QuizFormat.RoundTripSelects | frontend/components/Workspace/MemorizationMode.tsx:250-254 | An answer line that repeats an option word for word selects it: option C always, option B unless the line also names C, option A unless it names B or C. |

## Left out

- Lower-casing is ASCII-only (`Text.Lower`). Python's `str.lower` and JavaScript's `toLowerCase` also fold non-ASCII letters.
- Strings are sequences of characters. JavaScript's UTF-16 code units are not modelled, so `substring(0, 300)` and `.length` count characters.
- SessionMemory.Accuracy: the result is the exact real value; Python's float division and `round(accuracy, 2)` are not modelled.
- SessionMemory.Memory.GetSessionSummary: weak topics are returned as a set; the order `list(...)` gives them is not modelled.
- Saving the uploaded file, `extract_slides_text`, the HTTP endpoints and the prompt templates are not part of this model. `UploadPpt` takes the extracted slides as a parameter.
- The AI service is a parameter: `Router.RunMcp` takes the service's output, and the quiz view takes the fetched AI text.
- The endpoints in app.py call `run_mcp` with a `regenerate=` keyword, but `run_mcp` (router.py:20) has no such parameter. The model follows `run_mcp` as defined.
- The dagre layout engine is a parameter (`centre`) giving each node's centre.
- The random shuffle is a parameter: the option orders it produced, constrained to be permutations (multisets) of the unshuffled options.
- MemorizationMode.QuizView: the question list is fixed for the view's lifetime. When the AI text arrives later, the source recomputes `questions` with `useMemo` but keeps the current index, score and history; that interaction is not modelled.
- MemorizationMode.ParseBlock: the `try`/`catch` around each block is not modelled, because nothing in the modelled code throws.
- `JsSplit` models the four regular expressions the quiz view uses, not a general regex engine. `Evaluator` models only the three patterns `parse_game_answers` uses.
- QuizFormat.FormatRoundTrip: covers one block, starting from the text after the "Question:" header. It requires each line to end in a line break and is not indented. A text of several blocks is not covered as a whole: the header split takes the line break before each later header, so every block but the last reaches the parser without its final line break. The header split itself (MemorizationMode.tsx:222) is covered only by `NoHeaderNoBlocks` and `JsSplit` lemmas.
- VisualizationMode: the placeholder position (0, 0), node styling, edge style and animation, and the React Flow rendering are not modelled.
- Rendering, animation, the mode switcher, the file uploader, the sidebar and the pages are outside the core.
