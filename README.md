# showmaker: render-and-save workflow, modelled in Dafny

showmaker is a Tauri desktop app. The user uploads a markdown file, and the app
renders it to HTML with Quarto and saves the result. The JavaScript page
(`src/main.js`) accepts `.md` uploads. Its render button runs three Tauri
commands in turn:

- `render_quarto_file`
- `download_rendered_html`
- `save_html_file`

If the native save fails, the page falls back to a browser download. At load
time it also probes for Quarto with `check_quarto_installed` and enables or
disables the upload control to match. The Rust backend (`src-tauri/src/lib.rs`)
implements these commands:

- It looks for a Quarto executable among four fixed candidates.
- It writes the upload to a uniquely named temporary `.md`/`.qmd` file.
- It runs the first candidate that works, and returns the HTML path.
- It reads the HTML back as base64.
- It saves the HTML through the native save dialog.

The model has six modules:

- `Wrappers` has `Option` and `Result`.
- `Strings` holds the string operations of both runtimes: lower-casing, `endsWith`, `join`, Rust `trim` (Unicode White_Space), and decimal rendering.
- `Paths` holds the part of Rust's `std::path` the backend uses, over `/`-separated strings.
- `Backend` holds the four commands. Anything the operating system answers is a parameter: process outputs, file reads and writes, `exists`, `canonicalize`, the dialog's answer, the clock and the base64 encoder.
- `Js` holds `handleError` and the trace of effects the page produces, together with views of that trace.
- `Frontend` holds the page. The `Page` class is the DOMContentLoaded closure. Its methods are the handlers, and they append to the trace.

The click handler is proved against the specification function
`ClickEvents`. The call order, the reports, the single save attempt and the
fallback payload are proved as lemmas about that function.

## Model

| member | source | states |
|---|---|---|
| Strings.Lower | src-tauri/src/lib.rs:67 | `to_lowercase`, and JavaScript's `toLowerCase` at `src/main.js:46`: each character is lower-cased on its own and the length is kept; `Strings.LowerAt` states the rest |
| Strings.Join | src-tauri/src/lib.rs:39 | `join(sep)`: the parts in order with `sep` between each neighbouring pair, and `""` for no parts; the same function models `join(" ")` at `src/main.js:9`. `Strings.JoinSnoc` and `Strings.SplitJoin` state its properties |
| Strings.LowerAt | src-tauri/src/lib.rs:67 | lower-casing maps each character independently, so position `i` of the result is the lower-cased `s[i]` |
| Strings.SplitJoin | src/main.js:5-9 | joining parts that do not contain a one-character separator, such as the space of the notification message, can be undone by splitting at that character |
| Strings.JoinSnoc | src-tauri/src/lib.rs:29-39 | joining one more entry adds exactly one separator and that entry at the end |
| Strings.Trim | src-tauri/src/lib.rs:24 | Rust `trim`: the input with whitespace removed from both ends; `Strings.TrimShape` characterises it |
| Strings.TrimShape | src-tauri/src/lib.rs:24 | `trim` returns the slice of its input left after whitespace is removed from both ends: everything dropped is whitespace, and the result neither starts nor ends with whitespace |
| Strings.Decimal | src-tauri/src/lib.rs:61 | the `Display` of an unsigned integer, with at least one digit; `Strings.DecimalDigits` and `Strings.DecimalRoundTrip` state its properties |
| Strings.DecimalDigits | src-tauri/src/lib.rs:61 | the timestamp is rendered with decimal digits only and no leading zero |
| Strings.DecimalRoundTrip | src-tauri/src/lib.rs:56-61 | the rendered timestamp denotes the number it was made from |
| Paths.FileName | src-tauri/src/lib.rs:133-137 | `Path::file_name`: the last component after trailing separators are dropped, or none when that component is empty, `.` or `..`; `Paths.FileNameSpec` states what it returns |
| Paths.FileNameSpec | src-tauri/src/lib.rs:134-137 | a file name taken from a path is a single normal component: not empty, `.` or `..`, and free of separators |
| Paths.FileStem | src-tauri/src/lib.rs:59 | `Path::file_stem`: the file name up to its last dot, or the whole name when it has no dot or its only dot is the first character; none without a file name |
| Paths.Extension | src-tauri/src/lib.rs:60 | `Path::extension`: what follows the file name's last dot, under the same rule as `Paths.FileStem`; none when there is no such dot or no file name |
| Paths.FileStemSpec | src-tauri/src/lib.rs:59 | the stem of a path's file name holds no separator |
| Paths.Push | src-tauri/src/lib.rs:72-73 | `PathBuf::push`: an absolute name replaces the path; otherwise one separator is added unless the path is empty or already ends in one; `Paths.FileNameOfPush` states the result |
| Paths.FileNameOfPush | src-tauri/src/lib.rs:72-73 | pushing a file name onto any directory gives a path whose file name is exactly that name |
| Paths.WithExtension | src-tauri/src/lib.rs:86 | `Path::with_extension`: the path cut after the stem of its file name, followed by `.ext` (nothing for an empty `ext`); the path unchanged when it has no file name |
| Paths.WithExtensionOfPush | src-tauri/src/lib.rs:86 | replacing the extension of `dir/name` gives `dir/<stem of name>.<ext>` |
| Paths.SplitDotted | src-tauri/src/lib.rs:59-60 | a name `stem.ext` with a non-empty stem and a dot-free extension splits back into that stem and extension (the round trip of naming) |
| Paths.ReplaceExtension | src-tauri/src/lib.rs:72-86 | `dir/stem.ext` with its extension replaced by `newExt` is `dir/stem.newExt`; both paths have the stem `stem`, and each has its own extension |
| Backend.ProbeEntry | src-tauri/src/lib.rs:27-33 | the entry a failed `--version` probe pushes to `tried`: `<path> -> exit=<status>, stderr=<trimmed stderr>`, or `<path> -> err=<error>` when the process could not start |
| Backend.ProbeEntries | src-tauri/src/lib.rs:27-33 | one probe entry per candidate, in candidate order: `<path> -> exit=<status>, stderr=<trimmed stderr>` or `<path> -> err=<error>` |
| Backend.CheckQuartoInstalled | src-tauri/src/lib.rs:9-41 | candidates are started in their fixed order; every candidate started before the last one failed; the result is Ok with the trimmed stdout exactly when the last started candidate succeeded, so no later candidate runs; when all four fail, the error is the fixed prefix followed by all four entries joined by ` \| ` |
| Backend.BaseStem | src-tauri/src/lib.rs:57-63 | the stem of the uploaded name, or `temp_quarto` when there is no name or the name has no stem; `Backend.BaseStemIsPlain` states its shape |
| Backend.RawExtension | src-tauri/src/lib.rs:57-63 | the extension of the uploaded name, or `md` when there is no name or the name has no extension |
| Backend.TempStem | src-tauri/src/lib.rs:55-64 | the temporary stem `<stem>_<ts>`, which is `temp_quarto_<ts>` without an uploaded name; `Backend.TempStemShape` and `Backend.TempStemEndsWithTimestamp` state its shape |
| Backend.NormalizeExtension | src-tauri/src/lib.rs:67-70 | the result is always `md` or `qmd` up to case; the extension is kept unchanged, in its original case, exactly when it is `md` or `qmd` up to case; any other extension becomes `md` |
| Backend.QuartoExtIsPlain | src-tauri/src/lib.rs:67-70 | a normalised extension holds neither a dot nor a separator |
| Backend.BaseStemIsPlain | src-tauri/src/lib.rs:57-60 | the stem taken from the uploaded name, or `temp_quarto`, holds no separator |
| Backend.TimestampSuffixIsPlain | src-tauri/src/lib.rs:61 | the `_<ts>` suffix holds no separator |
| Backend.TempStemShape | src-tauri/src/lib.rs:57-64 | the temporary stem holds no separator and has at least two characters |
| Backend.TempStemEndsWithTimestamp | src-tauri/src/lib.rs:57-64 | the temporary stem, with or without an uploaded name, ends with `_<ts>` |
| Backend.TempFileName | src-tauri/src/lib.rs:57-73 | the name pushed onto the temporary directory: `<temporary stem>.<normalised extension>` |
| Backend.MdPath | src-tauri/src/lib.rs:72-73 | the temporary directory with the temporary file name pushed onto it |
| Backend.HtmlPath | src-tauri/src/lib.rs:86 | the markdown path with its extension replaced by `html`; `Backend.ExpectedHtmlPath` states what it is |
| Backend.TempFileNameShape | src-tauri/src/lib.rs:57-73 | the temporary file name is a plain file name; its stem is the temporary stem and its extension is `md` or `qmd` up to case |
| Backend.ExpectedHtmlPath | src-tauri/src/lib.rs:72-86 | the expected HTML path is `<tmp dir>/<stem>_<ts>.html`; its file name is `<stem>_<ts>.html`, its extension is `html`, and it has the same stem as the markdown path |
| Backend.RenderEntry | src-tauri/src/lib.rs:113-119 | the `last_err` of a failed render candidate: `<path>: exit=<status>, stderr=<trimmed stderr>`, or `<path>: 실행 오류 <error>` when the process could not start |
| Backend.MissingHtmlError | src-tauri/src/lib.rs:104-110 | the error for a successful render without the HTML file: the fixed text, then the trimmed stdout, the trimmed stderr and the HTML path, each in backquotes |
| Backend.RenderWithCandidates | src-tauri/src/lib.rs:86-123 | runs the candidates in order and stops at the first success; on that success the result is the canonical HTML path (or the plain one if canonicalisation fails) when the file exists, and otherwise the missing-HTML error with that candidate's trimmed stdout and stderr; when all four fail, the error is the last candidate's entry, so the `Quarto 실행 실패` default never applies |
| Backend.RenderQuartoFile | src-tauri/src/lib.rs:45-124 | a failed write of the temporary file returns `임시 파일 저장 실패: <error>` before any candidate runs; otherwise the candidate loop runs on the markdown path and the expected HTML path, with the guarantees above |
| Backend.DownloadName | src-tauri/src/lib.rs:133-137 | the offered name is the path's file name, or `output.html` when there is none; either way it is a plain file name |
| Backend.DownloadRenderedHtml | src-tauri/src/lib.rs:128-146 | Ok exactly when the read succeeds, with the download name and the base64 text of the bytes read; otherwise `HTML 파일 읽기 실패: <error>` |
| Backend.RenderedFileDownloadName | src-tauri/src/lib.rs:86-137 | the file produced by the render command is offered for download as `<stem>_<ts>.html`, provided canonicalisation keeps its file name |
| Backend.SaveHtmlFile | src-tauri/src/lib.rs:150-192 | a read failure is reported before any dialog opens; the dialog proposes the default name or `output.html`; a write happens exactly when the read succeeded and a path was chosen, and it writes the bytes read to that path; the result is Ok (`저장 완료: <path>`) exactly when that write succeeds; a closed channel gives the dialog error and a cancelled dialog gives `저장이 취소되었습니다.` |
| Js.Message | src/main.js:5-9 | the notification text: every argument rendered (an object as its JSON text, anything else as its string) and joined with single spaces |
| Js.HandleError | src/main.js:2-12 | the effects of `handleError`: one console error with all the arguments, then a notification of their message when there is at least one; `Js.HandleErrorEffects` states them |
| Js.LabelledMessage | src/main.js:5-10 | a report made of a heading and an error has the message `<heading> <error>` and produces one console error followed by that notification |
| Js.MessageSplits | src/main.js:5-9 | when no argument renders with a space in it, the notification message splits back into the rendered arguments |
| Js.HandleErrorEffects | src/main.js:2-12 | `handleError` always logs exactly one console error with all its arguments; it notifies exactly when it has at least one argument, and makes no call and no download |
| Frontend.IsMarkdownName | src/main.js:46 | the upload gate: the lower-cased file name ends with `.md`; `Frontend.MarkdownNameIff` characterises it |
| Frontend.MarkdownNameIff | src/main.js:46 | a name passes the upload gate exactly when it ends with `.` followed by `m`/`M` and then `d`/`D` |
| Frontend.MarkdownNameExamples | src/main.js:46 | `Notes.MD` passes the gate and `a.markdown` does not |
| Frontend.ClickEvents | src/main.js:64-106 | the effects of a click on an enabled button: the upload hint when nothing non-empty is staged; otherwise the render call, then its report or the fetch step. `Frontend.ClickViews`, `Frontend.OneSaveAttempt` and the lemmas after it state its properties |
| Frontend.FetchEvents | src/main.js:78-102 | the effects after a render succeeds: the fetch call, then its report under `[Download] Error:` or the save call and the save step |
| Frontend.SaveEvents | src/main.js:83-99 | the effects of the save step: the save result logged, or a report under `Tauri save failed:` followed by the fallback download and its log, or by a `[Download] Error:` report when the fallback throws |
| Frontend.NoCallWithoutContent | src/main.js:66-69 | with no staged content, or with empty content, a click makes no call, reports nothing, downloads nothing and logs only the upload hint |
| Frontend.SaveStepViews | src/main.js:83-99 | once the HTML is fetched: a successful save is only logged; a failed save is reported once under `Tauri save failed:` and then either downloaded through the fallback or, if the fallback throws, reported under `[Download] Error:` |
| Frontend.ClickViews | src/main.js:71-105 | calls, in order: render with the staged content and name; then the fetch, only after a render success and with the returned path; then the save, only after a fetch success, of that path under the fetched name. Each failing step gives exactly one report under its own label, and the notifications are exactly those reports' messages. The browser download happens exactly when the save fails and the fallback does not throw, with href `data:text/html;base64,<base64>` and the fetched name |
| Frontend.OneSaveAttempt | src/main.js:83-99 | after a successful render and fetch there is exactly one native save call, and exactly one browser download when that save fails and the fallback does not throw |
| Frontend.Rejected | src/main.js:72-87 | how a command's result reaches the page: `Ok` resolves the awaited `invoke` with its value, and `Err(message)` rejects it with the string `message` |
| Frontend.FetchedNameFlowsToSave | src/main.js:79-87 | when the fetch is the backend's `download_rendered_html`, the native save proposes the name the backend derived from the path, and a failed save downloads the encoded bytes under that same name |
| Frontend.CancelledSaveFallsBack | src-tauri/src/lib.rs:185-191 | a cancelled save dialog writes nothing and fails the save command, so the page reports the cancellation under `Tauri save failed:` and falls back to the browser download of the fetched text |
| Frontend.Page.constructor | src/main.js:33-40 | the staged state starts empty, there are no pending reads and no effects, and the view is as the markup left it |
| Frontend.Page.OnChange | src/main.js:42-61 | an empty selection changes nothing but the input. A file whose lower-cased name ends with `.md` starts being read and shows the render button. Any other file gives the notification `Only .md files are allowed!` and clears the input. It hides the button only if the undeclared `mdHeaderInfo` resolves. Staged content, name and path are never changed |
| Frontend.Page.OnLoad | src/main.js:54-58 | a completed read stages that file's text and name and leaves everything else alone |
| Frontend.Page.OnRenderClick | src/main.js:64-106 | a disabled button does nothing; otherwise the trace grows by exactly `ClickEvents` of the staged content, name and outcomes, and a successful render records the returned path |
| Frontend.Page.FetchAndSave | src/main.js:76-102 | after a render, the trace grows by the fetch call and then either the fetch's report or the save step |
| Frontend.Page.SaveOrFallBack | src/main.js:82-99 | the trace grows by the save call and the save step's effects, with the fallback payload built from the fetched name and base64 text |
| Frontend.Page.SetQuartoUI | src/main.js:110-133 | without the indicator nothing changes; otherwise the indicator turns `#4caf50` or `#f44336`; if present, the label is enabled with title `Upload` and the tooltip hidden, or the label is disabled with an empty title and the tooltip shown |
| Frontend.Page.Probe | src/main.js:134-138 | the probe calls `check_quarto_installed` once, and only when the indicator exists and `invoke` is a function. Once probed, the indicator turns green on success and red on failure; if the label is present, it is enabled with the title `Upload` or disabled with an empty title, and a present tooltip is hidden or shown. The rest of the view is unchanged. Without the probe, the view is unchanged |

## Left out

- Rendering of the page: the DOM, CSS and the notification element, with its 1800/2200 ms timers. A notification is the `Notify` event. The label's `disabled` class, pointer events and opacity always change together and are one flag.
- `FileReader`: its asynchrony is one `OnLoad` step per started read, and those steps may come in any order. The decoding of text is not modelled.
- Interleaving of a click's awaits with other events: each click is atomic. One consequence is not captured. A second click can overwrite `lastHtmlPath` while a first click waits for `download_rendered_html`, and the first click's save then uses the new path (`src/main.js:85` re-reads it). The model saves the path the render returned.
- Frontend.SaveStepViews: a fallback that throws is modelled as throwing before its anchor is clicked. A failure after the click, while removing the anchor, would also have downloaded.
- A missing `window.__TAURI__`: `src/main.js:31` would then throw, and no handler would be installed.
- Tauri IPC: a command's `Err(message)` reaches the page as the rejection value `message`. Other rejections are arbitrary `Arg` values.
- Process execution, exit-status display and `from_utf8_lossy`: these are the `ProcOutput` parameter, with the status already displayed as a string.
- Paths.FileName: only `/` is a separator, and only trailing separators are stripped. Windows prefixes, `\` separators, repeated inner separators and `.` components (`a/.` has the file name `a` in Rust) are not modelled.
- Strings.LowerChar: only `A`–`Z` are mapped. No other character lower-cases to `.`, `m`, `d` or `q`, so the `.md` gate and the md/qmd test are decided exactly as in the source.
- The timestamp is a `nat` parameter. The panic of `SystemTime::duration_since(UNIX_EPOCH).unwrap()` for a clock before 1970 is not modelled.
- Base64 encoding and `JSON.stringify` are opaque: the encoder is a parameter, and an object argument carries its serialisation.
- `save_html_file`'s dialog plugin, its file filters and its channel: only the answer received (closed channel, or a chosen path or none) is modelled. A `FilePath` that is not a path counts as none.
- `to_string_lossy` of the canonical path is the identity.
- `greet`, the framework wiring in `run()`, the commented-out upload block (`src/main.js:141-156`) and the unused `downloadFile` helper (`src/main.js:158-165`) do nothing the workflow uses.

Some behaviour that one might expect of this workflow is not in the code,
and the model follows the code:

- There is no re-entrancy guard. `renderBtn.disabled` is never set by the script, so a click while a conversion runs starts another.
- A successful native save produces no notification, only a console log.
- A failed native save is always reported (`Tauri save failed: …`), also when the fallback download then succeeds. A cancelled dialog therefore shows that notification too.
- The render button is shown as soon as an accepted file is chosen, before its content has been read.
- A refused upload leaves the staged content, name and path as they were. It hides the render button only if the undeclared name `mdHeaderInfo` resolves (`src/main.js:49`); otherwise the reference throws first.
- The refusal notification is shown directly, not through `handleError`, so nothing is logged for it.
- `lastHtmlPath` is never reset when a new file is staged.
