# openchat desktop helpers in Dafny

This project models the two pieces of logic in the openchat desktop client that
are more than glue:

- **The markdown helper crate** (`wasm/markdown-parser/src/lib.rs`): the word count
  (`get_word_count`, Rust's `split_whitespace().count()`), the heading collector of
  `extract_headings` (a three-state fold over the parser's event stream), the option
  sets that `parse_markdown` and `parse_markdown_with_options` hand to the parser, the
  success/error shape of `ParseResult`, and the per-input map of `batch_parse_markdown`.
- **The PTY commands of the Tauri backend** (`src-tauri/src/pty.rs`): the `PTY_PAIRS`
  registry from caller-chosen session ids to pseudo-terminal pairs, and the commands
  `create_pty`, `write_pty`, `resize_pty` and `destroy_pty` that change it.

Files:

- `wrappers.dfy` — `Option` and `Result` (errors are plain strings, as in the code).
- `words.dfy` — `Words`: Unicode White_Space, `SplitWhitespace`, `WordCount`, and a
  reference count of maximal non-whitespace runs (`RunCount`) proved equal to it.
- `headings.dfy` — `Headings`: the parser events as a datatype, the imperative event
  loop `ExtractHeadings`, and a declarative description `Collected` (each End(Heading)
  closes the heading whose Start is the last heading boundary before it) that the loop
  is proved to compute.
- `parse.dfy` — `MarkdownParse`: option sets, `ParseResult`, the two parse methods
  and `BatchParse`. The markdown-to-HTML conversion (pulldown_cmark) is a foreign call,
  so it is a `Renderer` parameter: a total function from text and options to either
  HTML or the Debug text of an error.
- `pty.dfy` — `Pty`: a `PtyRegistry` class whose `pairs: map<string, Handle>` field the
  four command methods update in place, each proved against a pure function of the
  old map (`CreateSpec`, `WriteSpec`, `ResizeSpec`, `DestroySpec`). Each foreign OS
  step (`openpty`, `spawn_command`, `take_writer`, `write_all`, `flush`,
  `master.resize`) is an `OsStep` parameter: `Done`, or `Failed(message)` carrying the
  error's `to_string()`. A `Handle` records which pair it is (pairs are numbered in the
  order they were opened), its size in rows and columns, the shell and whether the
  master's writer has been taken.

What the PTY model follows is the code, not an idealised terminal multiplexer:
`create_pty` overwrites an id already in use (the `HashMap::insert` at pty.rs:37), no
output is read back from any pseudo-terminal, and errors are strings such as
"PTY not found".

`write_pty` calls `take_writer` anew on every call and drops the writer afterwards.
The pseudo-terminal backend (portable_pty, not part of this model) hands out a
master's writer once only, so the model makes the backend's behaviour a
`WriterPolicy` parameter of the registry. The policy gives the message a second
take is refused with, and says whether a take that fails still uses the writer
up. Whatever the policy, only one write per session can get the writer
(`Pty.SecondWriteFails`).

## Model

| member | source | states |
|---|---|---|
| `Words.WordCount` | app/openchat-react-pc/wasm/markdown-parser/src/lib.rs:148-150 | the number of items split_whitespace yields; 0 exactly when the text is all whitespace, and 2 * count <= length + 1 |
| `Words.SplitWhitespace` | app/openchat-react-pc/wasm/markdown-parser/src/lib.rs:149 | every item split_whitespace yields is a non-empty run free of whitespace |
| `Words.WordCountExamples` | app/openchat-react-pc/wasm/markdown-parser/src/lib.rs:216-219 | the word count of "" is 0 and of "Hello world" is 2 |
| `Words.SingleWord` | app/openchat-react-pc/wasm/markdown-parser/src/lib.rs:149 | a whitespace-free non-empty text splits into itself alone |
| `Words.NoWordsIffBlank` | app/openchat-react-pc/wasm/markdown-parser/src/lib.rs:148-150 | split_whitespace yields nothing exactly when every character is whitespace |
| `Words.WordCountIsRunCount` | app/openchat-react-pc/wasm/markdown-parser/src/lib.rs:149 | the count equals the number of non-whitespace characters that start the text or follow whitespace, i.e. the maximal runs |
| `Words.LeadingBlankIgnored` | app/openchat-react-pc/wasm/markdown-parser/src/lib.rs:149 | leading whitespace does not change the words |
| `Words.TrailingBlankIgnored` | app/openchat-react-pc/wasm/markdown-parser/src/lib.rs:149 | trailing whitespace does not change the words |
| `Words.SeparatedWords` | app/openchat-react-pc/wasm/markdown-parser/src/lib.rs:149 | the words of a + ws + b, ws non-empty whitespace, are the words of a followed by those of b |
| `Words.WordCountAdditive` | app/openchat-react-pc/wasm/markdown-parser/src/lib.rs:149 | count(a + ws + b) = count(a) + count(b) for non-empty whitespace ws |
| `Words.WordsCoverText` | app/openchat-react-pc/wasm/markdown-parser/src/lib.rs:149 | the words, concatenated, are exactly the non-whitespace characters of the text in order |
| `Words.WordsBound` | app/openchat-react-pc/wasm/markdown-parser/src/lib.rs:148-150 | twice the number of words is at most the length plus one |
| `Headings.OpenStart` | app/openchat-react-pc/wasm/markdown-parser/src/lib.rs:182-194 | a heading is open exactly when the last heading boundary is a Start(Heading); otherwise every start has a later End(Heading) |
| `Headings.CollectedSnoc` | app/openchat-react-pc/wasm/markdown-parser/src/lib.rs:190-194 | one more event appends the open heading when it is an End(Heading) and a heading is open, and appends nothing otherwise |
| `Headings.CurrentSnoc` | app/openchat-react-pc/wasm/markdown-parser/src/lib.rs:181-196 | one more event: Start(Heading) opens a heading with empty text, End(Heading) closes it, Text extends an open heading, anything else leaves it |
| `Headings.ExtractHeadings` | app/openchat-react-pc/wasm/markdown-parser/src/lib.rs:177-197 | the event loop returns exactly Collected(events) |
| `Headings.CollectedPrefix` | app/openchat-react-pc/wasm/markdown-parser/src/lib.rs:190-194 | headings are only appended, in event order: the result for a prefix of the stream is a prefix of the result |
| `Headings.CurrentResume` | app/openchat-react-pc/wasm/markdown-parser/src/lib.rs:178-196 | with no heading open after a, the heading open after a + b is the one open after b alone |
| `Headings.CollectedResume` | app/openchat-react-pc/wasm/markdown-parser/src/lib.rs:180-197 | with no heading open after a, the headings of a + b are those of a then those of b |
| `Headings.CollectedWithoutEnd` | app/openchat-react-pc/wasm/markdown-parser/src/lib.rs:190-194 | events containing no End(Heading) add no heading |
| `Headings.CurrentAfterStart` | app/openchat-react-pc/wasm/markdown-parser/src/lib.rs:182-188 | after a heading start and boundary-free events, the open heading has the start's level and the concatenated Text of those events |
| `Headings.ClosedHeading` | app/openchat-react-pc/wasm/markdown-parser/src/lib.rs:180-197 | Start(Heading(l)), boundary-free events, End(Heading) emit exactly one heading (l, concatenation of the Text events between) after those already emitted |
| `Headings.RestartDiscards` | app/openchat-react-pc/wasm/markdown-parser/src/lib.rs:182-184 | a second Start(Heading) before the End discards the first one's level and text: only the later start and the Text after it are emitted |
| `Headings.IgnoredOutsideHeading` | app/openchat-react-pc/wasm/markdown-parser/src/lib.rs:185-194 | with no heading open, a Text event, a stray End(Heading) or any other non-start event can be removed without changing the result |
| `Headings.NoStartNoHeadings` | app/openchat-react-pc/wasm/markdown-parser/src/lib.rs:180-197 | a stream without heading starts yields no headings |
| `Headings.CollectedCountBound` | app/openchat-react-pc/wasm/markdown-parser/src/lib.rs:190-194 | there are at most as many headings as End(Heading) events |
| `MarkdownParse.ToParseResult` | app/openchat-react-pc/wasm/markdown-parser/src/lib.rs:62-73 | the result is well formed (success: error empty; failure: html empty, error "Parse error: " + cause) and succeeds exactly when the conversion did, carrying its HTML |
| `MarkdownParse.SelectedOptions` | app/openchat-react-pc/wasm/markdown-parser/src/lib.rs:93-103 | the option set holds tables, strikethrough and tasklists exactly when each is enabled, and nothing else |
| `MarkdownParse.ParseMarkdown` | app/openchat-react-pc/wasm/markdown-parser/src/lib.rs:52-74 | converts with exactly strikethrough, tables, tasklists and smart punctuation; the result is well formed and succeeds exactly when the conversion does |
| `MarkdownParse.ParseMarkdownWithOptions` | app/openchat-react-pc/wasm/markdown-parser/src/lib.rs:87-120 | converts with exactly the selected options and returns the well-formed result of that conversion |
| `MarkdownParse.DefaultIsAllSelectedPlusSmartPunctuation` | app/openchat-react-pc/wasm/markdown-parser/src/lib.rs:53-57 | parse_markdown's options are all three selectable flags plus smart punctuation, which parse_markdown_with_options never enables |
| `MarkdownParse.BatchParse` | app/openchat-react-pc/wasm/markdown-parser/src/lib.rs:131-134 | one result per input, in order: result i is what parse_markdown returns for input i |
| `MarkdownParse.BatchWellFormed` | app/openchat-react-pc/wasm/markdown-parser/src/lib.rs:131-134 | every result of a batch is well formed |
| `MarkdownParse.BatchAppend` | app/openchat-react-pc/wasm/markdown-parser/src/lib.rs:131-134 | the batch of a + b is the batch of a followed by the batch of b |
| `Pty.CreateSpec` | app/openchat-react-pc/src-tauri/src/pty.rs:20-40 | fails with openpty's or else spawn's message and leaves the map as it was; on success id maps to a new pair of 24 rows, 80 columns, the given shell or "bash", writer not taken; other ids untouched |
| `Pty.WriteSpec` | app/openchat-react-pc/src-tauri/src/pty.rs:44-53 | an absent id gives "PTY not found" and no change; a writer already taken gives the policy's refusal and no change; a failed take, write or flush gives its message; no id is added or removed; only the target's writer-taken flag can change, and it is set by a successful take (or a failed one, when the policy says so); success exactly when the writer was still there and every step succeeded |
| `Pty.ResizeSpec` | app/openchat-react-pc/src-tauri/src/pty.rs:57-71 | an absent id gives "PTY not found", a failed resize its message, both with no change; success sets the target's rows and cols and touches nothing else |
| `Pty.DestroySpec` | app/openchat-react-pc/src-tauri/src/pty.rs:75-78 | always Ok; the id is absent afterwards and every other entry is unchanged |
| `Pty.DestroyIdempotent` | app/openchat-react-pc/src-tauri/src/pty.rs:75-78 | destroying twice equals destroying once |
| `Pty.NotFoundAfterDestroy` | app/openchat-react-pc/src-tauri/src/pty.rs:44-78 | after destroy, write and resize of that id report "PTY not found" and change nothing |
| `Pty.ResizeIdempotent` | app/openchat-react-pc/src-tauri/src/pty.rs:57-70 | repeating a successful resize with the same size leaves the registry unchanged whatever the OS does |
| `Pty.SecondWriteFails` | app/openchat-react-pc/src-tauri/src/pty.rs:48 | once a write has taken the writer (or used it up with a failed take), every further write to the same session is refused at take_writer and changes nothing |
| `Pty.CreateReplaces` | app/openchat-react-pc/src-tauri/src/pty.rs:37 | create on an id in use keeps the number of sessions and replaces the old pair, which no session refers to any more |
| `Pty.CreateKeepsPairsDistinct` | app/openchat-react-pc/src-tauri/src/pty.rs:23-37 | create, numbering the new pair past all others, keeps each session on its own pair |
| `Pty.WriteKeepsPairsDistinct` | app/openchat-react-pc/src-tauri/src/pty.rs:44-53 | write keeps each session on its own pair |
| `Pty.ResizeKeepsPairsDistinct` | app/openchat-react-pc/src-tauri/src/pty.rs:57-71 | resize keeps each session on its own pair |
| `Pty.PtyRegistry.constructor` | app/openchat-react-pc/src-tauri/src/pty.rs:15-16 | the registry starts empty, with the backend's writer policy |
| `Pty.PtyRegistry.CreatePty` | app/openchat-react-pc/src-tauri/src/pty.rs:20-40 | updates the map in place as CreateSpec says and keeps sessions on distinct pairs |
| `Pty.PtyRegistry.WritePty` | app/openchat-react-pc/src-tauri/src/pty.rs:44-53 | updates the map in place as WriteSpec says, under the registry's writer policy, and keeps sessions on distinct pairs |
| `Pty.PtyRegistry.ResizePty` | app/openchat-react-pc/src-tauri/src/pty.rs:57-71 | updates the map in place as ResizeSpec says and keeps sessions on distinct pairs |
| `Pty.PtyRegistry.DestroyPty` | app/openchat-react-pc/src-tauri/src/pty.rs:75-78 | removes the id in place as DestroySpec says |

## Left out

- `get_reading_time` (lib.rs:161-165): a floating-point division, not modelled.
- The markdown parser and HTML writer (`Parser::new`, `Parser::new_ext`, `html::push_html`) belong to pulldown_cmark: the parse methods take the conversion as a `Renderer` parameter, and `ExtractHeadings` takes the parser's event stream as its input. Options are a set of flags rather than pulldown_cmark's bit flags.
- The renderer is fallible because the code as written matches `html::push_html`'s outcome against `Ok`/`Err` (lib.rs:62, lib.rs:108). pulldown_cmark's `push_html` returns `()`, so that match, and the serialisation of `Vec<ParseResult>` at lib.rs:136 (the struct derives no `Serialize`), would not build as written; the model follows the text, and the `RenderFailed` branch stands for the error path the code describes.
- `Pty.WriteSpec`: that a master's writer can be taken only once is portable_pty's behaviour, not code in this repository. The model assumes it for every backend. `WriterPolicy` fixes only the refusal message and whether a failed take uses the writer up.
- `ExtractHeadings` and `BatchParse` return the value before `serde_wasm_bindgen::to_value`; the "Serialization error: " path is not modelled.
- The `wasm_bindgen` getters and start hook, `utils::set_panic_hook` and `wee_alloc` are binding and runtime glue.
- The `Lazy<Mutex<…>>` global: the registry is one sequential object, with no concurrent interleaving of commands and no panic from a poisoned lock.
- The OS steps of `portable_pty` (pair allocation, process spawning, byte I/O, the resize ioctl) are parameters saying success or failure; the bytes written and the child process handle that `create_pty` drops are not modelled.
- Output forwarding and event emission: the code has none, so there is nothing to model.
- `main.rs` (tray menu, window show/focus/exit) and `commands.rs` (window commands, `greet`) are UI glue over Tauri.
- Word counts are unbounded naturals rather than `usize`; a count never exceeds the text's length, so this does not matter.
