/**
 The Tauri commands of the desktop backend (src-tauri/src/lib.rs): probing
 for a Quarto executable, rendering an uploaded markdown text to HTML through
 the first Quarto that runs, reading the rendered HTML back, and saving it
 through the native save dialog.

 Everything the commands ask of the operating system is a parameter: the
 output of running a program (`Command::output`), reading and writing files,
 whether a path exists, `canonicalize`, the save dialog's answer, the clock
 and the base64 encoder.
 */
module Backend {
  import opened Wrappers
  import opened Strings
  import opened Paths

  type Bytes = seq<bv8>

  /** The Quarto executables both commands try, in this order: the bundled
      binary for macOS and for Windows, then `quarto.cmd` and `quarto` from
      the PATH. */
  const Candidates: seq<string> := [
    "quarto/quarto-1.4.550/bin/quarto",
    "quarto/quarto-1.4.550/bin/quarto.exe",
    "quarto.cmd",
    "quarto"
  ]

  /** What `Command::output()` yields: the process ran to an exit status
      (`status` is how that status displays), or it could not be started. */
  datatype ProcOutput =
    | Exited(success: bool, status: string, stdout: string, stderr: string)
    | SpawnFailed(error: string)

  predicate Succeeded(o: ProcOutput) {
    o.Exited? && o.success
  }

  // ---------------------------------------------------------------------------
  // check_quarto_installed

  const NotFoundPrefix := "Quarto를 찾을 수 없습니다. 시도한 경로/명령: "

  /** The line recorded for a candidate that did not run successfully. */
  function ProbeEntry(path: string, o: ProcOutput): string {
    match o
    case Exited(_, status, _, stderr) => path + " -> exit=" + status + ", stderr=" + Trim(stderr)
    case SpawnFailed(e) => path + " -> err=" + e
  }

  /** One entry per path, in the order of the paths. */
  function ProbeEntries(paths: seq<string>, run: string -> ProcOutput): (entries: seq<string>)
    ensures |entries| == |paths|
    ensures forall i :: 0 <= i < |paths| ==> entries[i] == ProbeEntry(paths[i], run(paths[i]))
  {
    if paths == [] then [] else ProbeEntries(paths[..|paths| - 1], run) + [ProbeEntry(paths[|paths| - 1], run(paths[|paths| - 1]))]
  }

  /** Runs `<candidate> --version` for each candidate in turn (`run` gives the
      outcome of doing so) and stops at the first that exits successfully.
      `ran` lists the candidates started. */
  method CheckQuartoInstalled(run: string -> ProcOutput) returns (r: Result<string, string>, ran: seq<string>)
    ensures 0 < |ran| <= |Candidates| && ran == Candidates[..|ran|]
    ensures forall i :: 0 <= i < |ran| - 1 ==> !Succeeded(run(ran[i]))
    ensures r.Ok? <==> Succeeded(run(ran[|ran| - 1]))
    ensures r.Ok? ==> r.value == Trim(run(ran[|ran| - 1]).stdout)
    ensures r.Err? ==> ran == Candidates && r.error == NotFoundPrefix + Join(ProbeEntries(Candidates, run), " | ")
  {
    var tried: seq<string> := [];
    ran := [];
    for i := 0 to |Candidates|
      invariant ran == Candidates[..i]
      invariant forall j :: 0 <= j < i ==> !Succeeded(run(Candidates[j]))
      invariant |tried| == i
      invariant forall j :: 0 <= j < i ==> tried[j] == ProbeEntry(Candidates[j], run(Candidates[j]))
    {
      var path := Candidates[i];
      var output := run(path);
      ran := ran + [path];
      if Succeeded(output) {
        r := Ok(Trim(output.stdout));
        return;
      }
      tried := tried + [ProbeEntry(path, output)];
    }
    assert tried == ProbeEntries(Candidates, run);
    r := Err(NotFoundPrefix + Join(tried, " | "));
  }

  // ---------------------------------------------------------------------------
  // render_quarto_file: naming of the temporary markdown file

  /** The stem of the temporary file: the uploaded name's stem (or
      `temp_quarto`) followed by `_<timestamp>`. */
  function TempStem(origName: Option<string>, ts: nat): string {
    BaseStem(origName) + "_" + Decimal(ts)
  }

  const DefaultStem := "temp_quarto"

  /** The uploaded name's stem, or `temp_quarto` when there is no name or it
      has no stem. */
  function BaseStem(origName: Option<string>): string {
    match origName
    case Some(name) => FileStem(name).GetOr(DefaultStem)
    case None => DefaultStem
  }

  /** The extension the uploaded name carries (`md` without one), before
      normalisation. */
  function RawExtension(origName: Option<string>): string {
    match origName
    case Some(name) => Extension(name).GetOr("md")
    case None => "md"
  }

  /** Whether `ext`, lower-cased, is `md` or `qmd`. */
  predicate IsQuartoSourceExt(ext: string) {
    var l := Lower(ext);
    (|l| == 2 && l[0] == 'm' && l[1] == 'd') || (|l| == 3 && l[0] == 'q' && l[1] == 'm' && l[2] == 'd')
  }

  /** Keeps an `md`/`qmd` extension in whatever case it was written, and
      turns any other into `md`. */
  function NormalizeExtension(ext: string): (r: string)
    ensures IsQuartoSourceExt(r)
    ensures r == ext <==> IsQuartoSourceExt(ext)
    ensures !IsQuartoSourceExt(ext) ==> r == "md"
  {
    if IsQuartoSourceExt(ext) then ext else "md"
  }

  function TempFileName(origName: Option<string>, ts: nat): string {
    TempStem(origName, ts) + "." + NormalizeExtension(RawExtension(origName))
  }

  /** Where the uploaded text is written: the temporary directory joined with
      the temporary file name. */
  function MdPath(tmpDir: string, origName: Option<string>, ts: nat): string {
    Push(tmpDir, TempFileName(origName, ts))
  }

  /** Where Quarto is expected to put its output: the markdown path with its
      extension replaced by `html`. */
  function HtmlPath(tmpDir: string, origName: Option<string>, ts: nat): string {
    WithExtension(MdPath(tmpDir, origName, ts), "html")
  }

  /** An extension that is `md` or `qmd` up to case holds neither a dot nor
      a separator. */
  lemma QuartoExtIsPlain(ext: string)
    requires IsQuartoSourceExt(ext)
    ensures Lacks(ext, '.') && Lacks(ext, '/')
  {
    forall k | 0 <= k < |ext| ensures ext[k] != '.' && ext[k] != '/' {
      LowerAt(ext, k);
    }
    LacksSpec(ext, '.');
    LacksSpec(ext, '/');
  }

  lemma TimestampSuffixIsPlain(ts: nat)
    ensures Lacks("_" + Decimal(ts), '/')
  {
    DecimalDigits(ts);
    LacksSpec(Decimal(ts), '/');
    LacksConcat("_", Decimal(ts), '/');
  }

  /** The stem the temporary name starts from holds no separator. */
  lemma BaseStemIsPlain(origName: Option<string>)
    ensures Lacks(BaseStem(origName), '/')
  {
    if origName.Some? && FileStem(origName.value).Some? {
      FileStemSpec(origName.value);
    } else {
      LacksSpec(DefaultStem, '/');
    }
  }

  /** The temporary stem holds no separator and is at least two characters
      long. */
  lemma {:induction false} TempStemShape(origName: Option<string>, ts: nat)
    ensures Lacks(TempStem(origName, ts), '/') && |TempStem(origName, ts)| >= 2
  {
    var suffix := "_" + Decimal(ts);
    var s0 := BaseStem(origName);
    assert TempStem(origName, ts) == s0 + suffix;
    BaseStemIsPlain(origName);
    TimestampSuffixIsPlain(ts);
    LacksConcat(s0, suffix, '/');
  }

  /** The temporary stem is `<uploaded stem>_<ts>`, or `temp_quarto_<ts>`
      without an uploaded name: it always ends with `_<ts>`. */
  lemma TempStemEndsWithTimestamp(origName: Option<string>, ts: nat)
    ensures EndsWith(TempStem(origName, ts), "_" + Decimal(ts))
  {
    var suffix := "_" + Decimal(ts);
    var s0 := BaseStem(origName);
    assert TempStem(origName, ts) == s0 + suffix;
    assert (s0 + suffix)[|s0|..] == suffix;
  }

  /** The temporary file name is a plain file name `<stem>.<ext>` whose
      stem is the temporary stem and whose extension is `md` or `qmd` up to
      case. */
  lemma {:induction false} TempFileNameShape(origName: Option<string>, ts: nat)
    ensures IsFileName(TempFileName(origName, ts))
    ensures StemOf(TempFileName(origName, ts)) == TempStem(origName, ts)
    ensures ExtensionOf(TempFileName(origName, ts)).Some?
    ensures IsQuartoSourceExt(ExtensionOf(TempFileName(origName, ts)).value)
  {
    var stem := TempStem(origName, ts);
    var e := NormalizeExtension(RawExtension(origName));
    assert TempFileName(origName, ts) == stem + "." + e;
    TempStemShape(origName, ts);
    QuartoExtIsPlain(e);
    SplitDotted(stem, e);
    LacksInDotted(stem, e, '/');
  }

  /** The expected HTML file sits beside the markdown file and is named
      `<stem>_<ts>.html`. */
  lemma ExpectedHtmlPath(tmpDir: string, origName: Option<string>, ts: nat)
    ensures HtmlPath(tmpDir, origName, ts) == Push(tmpDir, TempStem(origName, ts) + "." + "html")
    ensures FileName(HtmlPath(tmpDir, origName, ts)) == Some(TempStem(origName, ts) + "." + "html")
    ensures Extension(HtmlPath(tmpDir, origName, ts)) == Some("html")
    ensures FileStem(HtmlPath(tmpDir, origName, ts)) == FileStem(MdPath(tmpDir, origName, ts))
  {
    var stem := TempStem(origName, ts);
    var e := NormalizeExtension(RawExtension(origName));
    assert MdPath(tmpDir, origName, ts) == Push(tmpDir, stem + "." + e);
    TempStemShape(origName, ts);
    QuartoExtIsPlain(e);
    LacksSpec("html", '.');
    LacksSpec("html", '/');
    ReplaceExtension(tmpDir, stem, e, "html");
  }

  // ---------------------------------------------------------------------------
  // render_quarto_file: writing the file and running Quarto

  const WriteFailedPrefix := "임시 파일 저장 실패: "
  const NoOutputMessage := "Quarto 실행 실패"

  /** The error for a candidate that exited successfully without producing
      the expected HTML file. */
  function MissingHtmlError(o: ProcOutput, htmlPath: string): string
    requires o.Exited?
  {
    "Quarto render 성공 코드이나 HTML이 보이지 않습니다. stdout=`" + Trim(o.stdout)
      + "`, stderr=`" + Trim(o.stderr) + "`, 경로=`" + htmlPath + "`"
  }

  /** The error recorded for a candidate that did not run successfully. */
  function RenderEntry(path: string, o: ProcOutput): string {
    match o
    case Exited(_, status, _, stderr) => path + ": exit=" + status + ", stderr=" + Trim(stderr)
    case SpawnFailed(e) => path + ": 실행 오류 " + e
  }

  /** Runs `<candidate> render <mdPath>` in the temporary directory for each
      candidate in turn until one exits successfully; `ran` lists the
      candidates started. That one decides the result: the canonical HTML
      path (the plain one if `canonicalize` fails) when the HTML file exists,
      an error otherwise. When every candidate fails, the error is the last
      candidate's. */
  method RenderWithCandidates(
    mdPath: string, htmlPath: string,
    run: (string, string) -> ProcOutput,
    pathExists: string -> bool,
    canonicalize: string -> Option<string>)
    returns (r: Result<string, string>, ran: seq<string>)
    ensures 0 < |ran| <= |Candidates| && ran == Candidates[..|ran|]
    ensures forall i :: 0 <= i < |ran| - 1 ==> !Succeeded(run(ran[i], mdPath))
    ensures Succeeded(run(ran[|ran| - 1], mdPath)) ==>
      r == if pathExists(htmlPath) then Ok(canonicalize(htmlPath).GetOr(htmlPath))
           else Err(MissingHtmlError(run(ran[|ran| - 1], mdPath), htmlPath))
    ensures !Succeeded(run(ran[|ran| - 1], mdPath)) ==>
      ran == Candidates && r == Err(RenderEntry(ran[|ran| - 1], run(ran[|ran| - 1], mdPath)))
  {
    var lastErr: Option<string> := None;
    ran := [];
    for i := 0 to |Candidates|
      invariant ran == Candidates[..i]
      invariant forall j :: 0 <= j < i ==> !Succeeded(run(Candidates[j], mdPath))
      invariant i > 0 ==> lastErr == Some(RenderEntry(Candidates[i - 1], run(Candidates[i - 1], mdPath)))
    {
      var path := Candidates[i];
      var output := run(path, mdPath);
      ran := ran + [path];
      if Succeeded(output) {
        if pathExists(htmlPath) {
          r := Ok(canonicalize(htmlPath).GetOr(htmlPath));
        } else {
          r := Err(MissingHtmlError(output, htmlPath));
        }
        return;
      }
      lastErr := Some(RenderEntry(path, output));
    }
    r := Err(lastErr.GetOr(NoOutputMessage));
  }

  /** Writes `mdContent` to the temporary markdown file (`write` gives the
      error of doing so, if any) and, if that worked, renders it with the
      first candidate that runs, expecting the HTML at `HtmlPath`. */
  method RenderQuartoFile(
    mdContent: string, origName: Option<string>, ts: nat, tmpDir: string,
    write: (string, string) -> Option<string>,
    run: (string, string) -> ProcOutput,
    pathExists: string -> bool,
    canonicalize: string -> Option<string>)
    returns (r: Result<string, string>, ran: seq<string>)
    ensures var md := MdPath(tmpDir, origName, ts);
      write(md, mdContent).Some? ==> ran == [] && r == Err(WriteFailedPrefix + write(md, mdContent).value)
    ensures var md := MdPath(tmpDir, origName, ts);
      write(md, mdContent).None? ==>
        && 0 < |ran| <= |Candidates| && ran == Candidates[..|ran|]
        && (forall i :: 0 <= i < |ran| - 1 ==> !Succeeded(run(ran[i], md)))
    ensures var md, html := MdPath(tmpDir, origName, ts), HtmlPath(tmpDir, origName, ts);
      write(md, mdContent).None? && ran != [] && Succeeded(run(ran[|ran| - 1], md)) ==>
        r == if pathExists(html) then Ok(canonicalize(html).GetOr(html))
             else Err(MissingHtmlError(run(ran[|ran| - 1], md), html))
    ensures var md := MdPath(tmpDir, origName, ts);
      write(md, mdContent).None? && ran != [] && !Succeeded(run(ran[|ran| - 1], md)) ==>
        ran == Candidates && r == Err(RenderEntry(ran[|ran| - 1], run(ran[|ran| - 1], md)))
  {
    var mdPath := MdPath(tmpDir, origName, ts);
    var written := write(mdPath, mdContent);
    if written.Some? {
      return Err(WriteFailedPrefix + written.value), [];
    }
    var htmlPath := HtmlPath(tmpDir, origName, ts);
    r, ran := RenderWithCandidates(mdPath, htmlPath, run, pathExists, canonicalize);
  }

  // ---------------------------------------------------------------------------
  // download_rendered_html

  const ReadFailedPrefix := "HTML 파일 읽기 실패: "

  /** The name the rendered file is offered under: the path's file name, or
      `output.html` when it has none. */
  function DownloadName(htmlPath: string): (name: string)
    ensures IsFileName(name)
    ensures FileName(htmlPath).Some? ==> name == FileName(htmlPath).value
    ensures FileName(htmlPath).None? ==> name == "output.html"
  {
    FileNameSpec(htmlPath);
    LacksSpec("output.html", '/');
    match FileName(htmlPath)
    case Some(n) => n
    case None => "output.html"
  }

  /** Reads the rendered HTML (`read` gives the outcome) and returns its name
      and its base64 text (`encode` is the standard base64 encoder). */
  function DownloadRenderedHtml(htmlPath: string, read: string -> Result<Bytes, string>, encode: Bytes -> string)
    : (r: Result<(string, string), string>)
    ensures r.Ok? <==> read(htmlPath).Ok?
    ensures r.Ok? ==> r.value == (DownloadName(htmlPath), encode(read(htmlPath).value))
    ensures r.Err? ==> r.error == ReadFailedPrefix + read(htmlPath).error
  {
    match read(htmlPath)
    case Ok(bytes) => Ok((DownloadName(htmlPath), encode(bytes)))
    case Err(e) => Err(ReadFailedPrefix + e)
  }

  /** The file the render command produces is downloaded under the name
      `<stem>_<ts>.html`, as long as canonicalisation keeps its file name. */
  lemma RenderedFileDownloadName(tmpDir: string, origName: Option<string>, ts: nat, canonical: string)
    requires FileName(canonical) == FileName(HtmlPath(tmpDir, origName, ts))
    ensures DownloadName(canonical) == TempStem(origName, ts) + "." + "html"
  {
    ExpectedHtmlPath(tmpDir, origName, ts);
  }

  // ---------------------------------------------------------------------------
  // save_html_file

  /** What the save dialog hands back through its channel: nothing (the
      channel closed), or the chosen path (`None` when the user cancelled or
      the choice is not a file path). */
  datatype DialogAnswer = ChannelClosed | Chosen(path: Option<string>)

  /** What one call of the command did: the name the dialog proposed (if it
      was opened), the write it attempted (if any) and its result. */
  datatype SaveOutcome = SaveOutcome(dialogName: Option<string>, written: Option<(string, Bytes)>, result: Result<string, string>)

  const DialogFailedMessage := "파일 선택 대화상자 오류"
  const CancelledMessage := "저장이 취소되었습니다."
  const WriteFailedSavePrefix := "파일 저장 실패: "
  const SavedPrefix := "저장 완료: "

  /** Reads the rendered HTML, asks the dialog for a target proposing
      `defaultName` (or `output.html`), and writes the HTML there. */
  function SaveHtmlFile(
    htmlPath: string, defaultName: Option<string>,
    read: string -> Result<Bytes, string>, dialog: DialogAnswer,
    write: (string, Bytes) -> Option<string>)
    : (s: SaveOutcome)
    ensures s.dialogName == if read(htmlPath).Ok? then Some(defaultName.GetOr("output.html")) else None
    ensures s.written.Some? <==> read(htmlPath).Ok? && dialog.Chosen? && dialog.path.Some?
    ensures s.written.Some? ==> s.written.value == (dialog.path.value, read(htmlPath).value)
    ensures s.result.Ok? <==> s.written.Some? && write(s.written.value.0, s.written.value.1).None?
    ensures s.result.Ok? ==> s.result.value == SavedPrefix + dialog.path.value
    ensures read(htmlPath).Err? ==> s.result == Err(ReadFailedPrefix + read(htmlPath).error)
    ensures read(htmlPath).Ok? && dialog == ChannelClosed ==> s.result == Err(DialogFailedMessage)
    ensures read(htmlPath).Ok? && dialog == Chosen(None) ==> s.result == Err(CancelledMessage)
  {
    var fileName := defaultName.GetOr("output.html");
    match read(htmlPath)
    case Err(e) => SaveOutcome(None, None, Err(ReadFailedPrefix + e))
    case Ok(content) =>
      match dialog
      case ChannelClosed => SaveOutcome(Some(fileName), None, Err(DialogFailedMessage))
      case Chosen(None) => SaveOutcome(Some(fileName), None, Err(CancelledMessage))
      case Chosen(Some(path)) =>
        match write(path, content)
        case Some(e) => SaveOutcome(Some(fileName), Some((path, content)), Err(WriteFailedSavePrefix + e))
        case None => SaveOutcome(Some(fileName), Some((path, content)), Ok(SavedPrefix + path))
  }
}
