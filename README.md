# MediGen Catalyst: session state and upload deduplication

MediGen Catalyst is a Streamlit page in front of a hosted Gemini model. A user uploads medical
images and asks the model to analyse one. The user can then ask follow-up questions about that
analysis. Almost everything is rendering or calls into foreign code. This project models the two
pieces that carry logic, in both app variants (`medigen_enhance.py` and the earlier
`medigen_enhance..py`):

- **Upload deduplication** (module `Dedup`, `dedup.dfy`). Each uploaded file is decoded and its
  pixels are fingerprinted. The loop keeps the first file for each fingerprint in
  `processed_images` and lists the fingerprints in first-seen order in `unique_images`. The
  error-handling variant skips a file whose decode or hash fails, and also a file whose digest
  is empty, because its test reads `image_hash and …`. The earlier variant has no error
  handling: one failing file aborts the whole run. Decoding (PIL `Image.open`) and fingerprinting
  (MD5 of `Image.tobytes`) are function parameters. `None` from either stands for the call
  raising. `DedupUploads` and `DedupUploadsStrict` are the two loops. Each is proved equal to the
  fold `Dedup` and to the first-seen characterisation `FirstSeen`.
- **Session state** (module `SessionStore`, `session.dfy`). The class `SessionState` has three
  fields: `analyses` (filename → analysis text), `chatHistory` (question/answer turns) and
  `selectedImage`. Each field is a `Slot`, because a key of `st.session_state` is absent until
  the initialisation block sets it. Each button is one method: Analyze, Clear Analysis History,
  Ask AI and Clear Chat History. Every method states its whole new state, and also ties the new
  state to the pure transition `Apply` on the value type `Session`. `Run` applies a sequence of
  actions, one page run each. The lemmas about `Run` state what holds across a whole session.
  The model's reply is an `Option<string>` argument. As in `response and response.text`, only a
  non-empty reply is a success.

The two variants change the session in the same way. The earlier variant lets an exception
abort the page run, where the later one catches and reports it. The exception handling itself
changes no session state. On the Analyze path, the file was already selected before the model
call that may raise (medigen_enhance.py:163, medigen_enhance..py:112), and that selection stays,
as `SessionState.Analyze` states. So the methods of `SessionState` model both variants:
medigen_enhance..py:108-140 (analyze), 150-152 (clear analyses), 155-194 (ask) and 207-209
(clear chat).

Two behaviours of the code are worth noting:

- **Ask AI needs only a selected image.** The code tests only `selected_image`
  (medigen_enhance.py:215). For an image without an analysis it falls back to the text
  "No analysis available." (medigen_enhance.py:220). `SelectedWithoutAnalysis` shows that this
  state is reachable: a failed Analyze press leaves the image selected with no analysis. So the
  model does not claim that the selected image always has an analysis.
- **The earlier variant has no per-file recovery.** The first file that fails to decode or hash
  aborts the whole batch (medigen_enhance..py:99-103, `DedupUploadsStrict`). Only
  medigen_enhance.py skips a failing file and goes on with the rest.

## Model

| member | source | states |
|---|---|---|
| `Dedup.KeptKey` | medigen_enhance.py:148-153 | a file contributes a fingerprint exactly when it decodes, its hash succeeds and the digest is non-empty (truthy), and then it is the computed digest |
| `Dedup.FirstIndex` | medigen_enhance.py:153-154 | the position of the first file with a given fingerprint, or the batch length when no file has it; no earlier file has that fingerprint |
| `Dedup.DedupKeepsEveryFingerprint` | medigen_enhance.py:153-155 | after the loop, `unique_images` and the keys of `processed_images` hold the same fingerprints, and these are exactly the fingerprints that occur in the batch |
| `Dedup.DedupKeepsFirstFile` | medigen_enhance.py:153-154 | `processed_images[h]` is the first uploaded file with fingerprint `h`; later duplicates never replace it |
| `Dedup.DedupKeepsFirstSeenOrder` | medigen_enhance.py:147-155 | `unique_images` is ordered by the position of each fingerprint's first occurrence in the batch |
| `Dedup.DedupIsFirstSeen` | medigen_enhance.py:144-155 | the loop's result satisfies the whole first-seen characterisation, and `unique_images` has no fingerprint twice |
| `Dedup.SkippedFileContributesNothing` | medigen_enhance.py:148-157 | a file with no usable fingerprint can be removed from the batch without changing the result: it contributes nothing and the loop goes on with the rest |
| `Dedup.DedupUploads` | medigen_enhance.py:143-157 | the error-handling loop computes the fold over the kept fingerprints, keeps the first file per fingerprint in first-seen order, and repeats no fingerprint |
| `Dedup.DedupUploadsStrict` | medigen_enhance..py:95-106 | the run aborts exactly when some file fails to decode or hash; otherwise it keeps the first file per fingerprint, in first-seen order, with no fingerprint repeated |
| `Dedup.VariantsAgreeOnCleanBatch` | medigen_enhance..py:99-106 | when every file decodes and hashes to a non-empty digest, the earlier variant does not abort, and both variants produce the same map and list |
| `Dedup.IdenticalUploadsKeepFirst` | medigen_enhance.py:147-155 | two byte-identical uploads named a.png and b.png yield exactly one entry, the file a.png |
| `SessionStore.FollowUpPrompt` | medigen_enhance.py:239 | the follow-up prompt consists of the fixed lead-in, then the prior analysis, then the fixed joiner, then the question |
| `SessionStore.FollowUpPromptDeterminesQuestion` | medigen_enhance.py:239 | for a given analysis, two questions that produce the same prompt are the same question |
| `SessionStore.FollowUpRequest` | medigen_enhance.py:215-239 | no model call is made exactly when no image is selected or the question is empty; otherwise the prompt is grounded in the selected image's analysis or in the default text |
| `SessionStore.AnalysisLookupAfter` | medigen_enhance.py:220 | after a successful analyze, the lookup for that filename gives the new reply; after clearing analyses, every lookup gives "No analysis available."; any other action leaves the lookup unchanged |
| `SessionStore.SelectedWithoutAnalysis` | medigen_enhance.py:162-197 | a failed analyze of a file with no analysis still selects it, stores nothing, and a later question is grounded in "No analysis available." |
| `SessionStore.ChatIsAppendOnly` | medigen_enhance.py:249-250 | in any sequence of actions without Clear Chat History, the earlier transcript stays a prefix of the final one |
| `SessionStore.AnalysedNamesPersist` | medigen_enhance.py:181-185 | in any sequence of actions without Clear Analysis History, every analysed filename still has an analysis at the end |
| `SessionStore.FailedCallsKeepRecords` | medigen_enhance.py:181-197 | a sequence of analyze and ask presses whose model calls all fail leaves the analyses and the transcript exactly as they were |
| `SessionStore.SelectionKeptWithoutAnalyze` | medigen_enhance.py:162-163 | only an Analyze press changes the selected image; clears and questions never do |
| `SessionStore.SelectionIsLastAnalyzed` | medigen_enhance.py:162-163 | after any sequence of actions, the selected image is the file of the last Analyze press, whether or not that call succeeded |
| `SessionStore.AnalyzeThenAsk` | medigen_enhance.py:181-250 | analysing a.png successfully and then asking "What stage is this?" sends a prompt grounded in a.png's analysis and leaves exactly that one turn in the transcript |
| `SessionStore.SessionState.Initialize` | medigen_enhance.py:98-103 | each of the three keys gets its default (empty map, empty list, no image) only when it is absent; a rerun never resets a set key, and a new session starts empty |
| `SessionStore.SessionState.Analyze` | medigen_enhance.py:159-197 | the file is selected whatever the outcome; a non-empty reply is stored under the file's name, overwriting an earlier entry and otherwise growing the map by one; a failure leaves the analyses unchanged; the transcript never changes (same in medigen_enhance..py:108-140) |
| `SessionStore.SessionState.ClearAnalysisHistory` | medigen_enhance.py:207-209 | the analyses become empty; the transcript and the selected image are unchanged (same in medigen_enhance..py:150-152) |
| `SessionStore.SessionState.Ask` | medigen_enhance.py:212-257 | with no selected image or an empty question, no call is made and nothing changes; otherwise the grounded prompt is sent, a non-empty reply appends exactly one (question, answer) turn at the end, and a failure changes nothing; analyses and selection never change (same in medigen_enhance..py:155-194) |
| `SessionStore.SessionState.ClearChatHistory` | medigen_enhance.py:270-272 | the transcript becomes empty; the analyses and the selected image are unchanged (same in medigen_enhance..py:207-209) |

## Left out

- medigen_catalyst.py: one upload, one model call and a display. It keeps no session state and does no deduplication.
- Image decoding and fingerprinting internals (PIL `Image.open`, `Image.tobytes`, MD5 via hashlib): foreign libraries, modelled as function parameters that may fail. MD5 itself is not modelled.
- The Gemini calls (`genai.GenerativeModel`, `generate_content`), the generation parameters, the safety settings and the system prompt text: a network service and constant configuration. Replies are arguments of the actions that make a call.
- PDF export (`generate_pdf`, WeasyPrint, the file read and the download button): foreign rendering and file I/O. In both variants it runs after the analysis is stored, so it cannot undo the store.
- The runtime `pip install` calls and the imports: environment setup.
- The API-key prompt and `st.stop` (medigen_enhance.py:39-43): UI flow before any session logic. In medigen_enhance..py:14 the name `your_google_api_key` is undefined, so that script fails at startup. Its logic is modelled as written; the model does not claim that it runs.
- Rendering: Streamlit widgets, navigation, `st.rerun`, progress bars, spinners, the logo and diagram images, the "Previous Analyses" and "Previous Interactions" listings, and the fixed `"image/jpeg"` MIME type.
- Display failures: the model assumes that no `st.image` call raises.
  - In medigen_enhance.py:150 a raising display would skip the file, like a failed decode.
  - In medigen_enhance..py:101 it would abort the run instead.
  - On the Ask page, `st.image(selected_image)` runs before the question is read (medigen_enhance.py:223, medigen_enhance..py:165). If it raised, no model call would be made, although `SessionState.Ask` returns `request` as `Some`.
- Order of the analyses: the source's dict keeps insertion order, and a re-analysed name keeps its first position. That order is visible only in the "Previous Analyses" listing (medigen_enhance.py:200-204). The model keeps the analyses in an unordered `map`, so it does not record this order.
- Dedup.DedupUploads: the model does not record which per-file error message was shown. It records only that such a file contributes nothing.
