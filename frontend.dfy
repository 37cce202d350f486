/**
 The page script's state and handlers (src/main.js:33-139). A `Page` is the
 closure set up on DOMContentLoaded: which elements the page has, the staged
 upload (`lastMdContent`, `lastMdName`, `lastHtmlPath`), the parts of the view
 the handlers change, and the trace of effects (Tauri calls, notifications,
 console output, browser downloads).

 Each asynchronous step is one method: a `change` event on the upload input,
 the completion of a `FileReader` started by it, a click on the render button
 (with the outcomes of the three commands it awaits as a parameter) and the
 Quarto availability probe.
 */
module Frontend {
  import opened Wrappers
  import opened Strings
  import opened Js
  import Backend

  /** A file chosen in the upload input; `text` is what `readAsText` yields. */
  datatype File = File(name: string, text: string)

  /** The parts of the page the handlers change. `inputFile` is the name the
      upload input holds, `None` when it holds none (as the markup leaves it,
      and as a refused file leaves it once cleared). In every other field
      `None` means "as the page markup left it". `labelDisabled` stands for
      the `disabled` class, the pointer events and the opacity of the upload
      label, which always change together. */
  datatype View = View(
    inputFile: Option<string>,
    renderShown: Option<bool>,
    indicatorColor: Option<string>,
    labelDisabled: Option<bool>,
    labelTitle: Option<string>,
    tooltipShown: Option<bool>)

  /** What the awaited steps of one click settle to: the three commands'
      results (an error is whatever the promise rejects with) and whether the
      fallback download throws before its anchor is clicked. */
  datatype Outcomes = Outcomes(
    render: Result<string, Arg>,
    download: Result<(string, string), Arg>,
    save: Result<string, Arg>,
    fallbackError: Option<Arg>)

  const OnlyMarkdownMessage := "Only .md files are allowed!"
  const NoContentMessage := "Please upload a markdown file first."
  const RenderFailedLabel := "Quarto render failed:"
  const DownloadFailedLabel := "[Download] Error:"
  const SaveFailedLabel := "Tauri save failed:"
  const DataUrlPrefix := "data:text/html;base64,"
  const FallbackDoneMessage := "HTML download complete (fallback)"
  const InstalledColor := "#4caf50"
  const MissingColor := "#f44336"
  const EnabledTitle := "Upload"

  // ---------------------------------------------------------------------------
  // The upload gate

  /** Whether the lower-cased name ends with `.md`. */
  predicate IsMarkdownName(name: string) {
    EndsWith(Lower(name), ".md")
  }

  lemma LowerCharIs(c: char, lower: char, upper: char)
    requires 'a' <= lower <= 'z' && upper as int == lower as int - 32
    ensures LowerChar(c) == lower <==> c == lower || c == upper
  {
  }

  /** A name passes the gate exactly when it ends with a dot followed by `m`
      or `M` and then `d` or `D`. */
  lemma MarkdownNameIff(name: string)
    ensures IsMarkdownName(name) <==>
      && |name| >= 3
      && name[|name| - 3] == '.'
      && (name[|name| - 2] == 'm' || name[|name| - 2] == 'M')
      && (name[|name| - 1] == 'd' || name[|name| - 1] == 'D')
  {
    var l := Lower(name);
    var n := |name|;
    if n >= 3 {
      LowerAt(name, n - 3);
      LowerAt(name, n - 2);
      LowerAt(name, n - 1);
      LowerCharIs(name[n - 2], 'm', 'M');
      LowerCharIs(name[n - 1], 'd', 'D');
      var tail := l[n - 3..];
      assert tail[0] == l[n - 3] && tail[1] == l[n - 2] && tail[2] == l[n - 1];
      assert ".md"[0] == '.' && ".md"[1] == 'm' && ".md"[2] == 'd';
      if l[n - 3] == '.' && l[n - 2] == 'm' && l[n - 1] == 'd' {
        assert tail == ".md";
      }
    }
  }

  /** An upper-case `.MD` passes; a `.markdown` file does not. */
  lemma MarkdownNameExamples()
    ensures IsMarkdownName("Notes.MD")
    ensures !IsMarkdownName("a.markdown")
  {
    MarkdownNameIff("Notes.MD");
    MarkdownNameIff("a.markdown");
  }

  // ---------------------------------------------------------------------------
  // The render click

  /** `lastMdContent` is truthy: set, and not the empty string. */
  predicate Staged(content: Option<string>) {
    content.Some? && |content.value| > 0
  }

  /** The effects of one click on an enabled render button, given the staged
      content and name and the outcomes of the awaited steps: render, fetch
      the HTML, save it natively, and on a failed save fall back to a browser
      download of the fetched base64 text. A failure in the fallback is
      caught with the download's. */
  function ClickEvents(content: Option<string>, name: Option<string>, o: Outcomes): seq<Event> {
    if !Staged(content) then [ConsoleLog(NoContentMessage)]
    else
      [Invoke(RenderQuartoFile(content.value, name))] +
      match o.render
      case Err(e) => HandleError([Text(RenderFailedLabel), e])
      case Ok(htmlPath) => FetchEvents(htmlPath, o)
  }

  /** The effects once the render returned `htmlPath`: fetch it, and after a
      successful fetch save it natively under the fetched name. */
  function FetchEvents(htmlPath: string, o: Outcomes): seq<Event> {
    [Invoke(DownloadRenderedHtml(htmlPath))] +
    match o.download
    case Err(e) => HandleError([Text(DownloadFailedLabel), e])
    case Ok((fileName, base64)) =>
      [Invoke(SaveHtmlFile(htmlPath, fileName))] + SaveEvents(fileName, base64, o.save, o.fallbackError)
  }

  /** The effects once the native save settles: its result is logged; if it
      failed, the failure is reported and the fetched text is offered as a
      browser download under the fetched name. */
  function SaveEvents(fileName: string, base64: string, save: Result<string, Arg>, fallbackError: Option<Arg>): seq<Event> {
    match save
    case Ok(result) => [ConsoleLog(result)]
    case Err(e) =>
      HandleError([Text(SaveFailedLabel), e]) +
      match fallbackError
      case None => [AnchorDownload(DataUrlPrefix + base64, fileName), ConsoleLog(FallbackDoneMessage)]
      case Some(x) => HandleError([Text(DownloadFailedLabel), x])
  }

  /** Whether the render step ran and succeeded and the HTML was fetched,
      so that a save was attempted. */
  predicate Fetched(content: Option<string>, o: Outcomes) {
    Staged(content) && o.render.Ok? && o.download.Ok?
  }

  /** Without staged content a click makes no call, reports nothing and
      downloads nothing. */
  lemma NoCallWithoutContent(content: Option<string>, name: Option<string>, o: Outcomes)
    requires !Staged(content)
    ensures Collect(ClickEvents(content, name, o), InvocationOf) == []
    ensures Collect(ClickEvents(content, name, o), ErrorOf) == []
    ensures Collect(ClickEvents(content, name, o), DownloadOf) == []
    ensures Collect(ClickEvents(content, name, o), LogOf) == [NoContentMessage]
  {
  }

  /** The errors reported after a fetch: none when the native save works;
      otherwise the save failure, followed by the fallback's own failure, if
      any, under the download label. */
  function SaveReports(save: Result<string, Arg>, fallbackError: Option<Arg>): seq<seq<Arg>> {
    if save.Ok? then []
    else
      var fallbackReports := if fallbackError.Some? then [[Text(DownloadFailedLabel), fallbackError.value]] else [];
      [[Text(SaveFailedLabel), save.error]] + fallbackReports
  }

  lemma SaveStepViews(base64: string, fileName: string, save: Result<string, Arg>, fallbackError: Option<Arg>, t: seq<Event>)
    requires t == SaveEvents(fileName, base64, save, fallbackError)
    ensures Collect(t, InvocationOf) == []
    ensures Collect(t, DownloadOf) == if save.Err? && fallbackError.None? then [(DataUrlPrefix + base64, fileName)] else []
    ensures Collect(t, ErrorOf) == SaveReports(save, fallbackError)
    ensures Collect(t, NotificationOf) == Collect(SaveReports(save, fallbackError), MessageOf)
  {
    if save.Err? {
      var h := HandleError([Text(SaveFailedLabel), save.error]);
      var rest := t[|h|..];
      assert t == h + rest;
      HandleErrorEffects([Text(SaveFailedLabel), save.error]);
      CollectConcat(h, rest, InvocationOf);
      CollectConcat(h, rest, DownloadOf);
      CollectConcat(h, rest, ErrorOf);
      CollectConcat(h, rest, NotificationOf);
      var reports := SaveReports(save, fallbackError);
      CollectConcat(reports[..1], reports[1..], MessageOf);
      assert reports == reports[..1] + reports[1..];
      if fallbackError.Some? {
        HandleErrorEffects([Text(DownloadFailedLabel), fallbackError.value]);
      }
    }
  }

  /** The views of a click's trace: the calls made, the errors reported (one
      per failed step, each under its own label; a failing fallback is
      reported under the download's label) and the browser download, which
      happens exactly when the native save fails and the fallback does not
      throw, and carries the fetched name and base64 text. */
  lemma {:induction false} ClickViews(content: Option<string>, name: Option<string>, o: Outcomes)
    requires Staged(content)
    ensures Collect(ClickEvents(content, name, o), InvocationOf) ==
      [RenderQuartoFile(content.value, name)]
      + (if o.render.Ok? then [DownloadRenderedHtml(o.render.value)] else [])
      + (if o.render.Ok? && o.download.Ok? then [SaveHtmlFile(o.render.value, o.download.value.0)] else [])
    ensures Collect(ClickEvents(content, name, o), ErrorOf) ==
      match o.render
      case Err(e) => [[Text(RenderFailedLabel), e]]
      case Ok(_) =>
        match o.download
        case Err(e) => [[Text(DownloadFailedLabel), e]]
        case Ok(_) =>
          SaveReports(o.save, o.fallbackError)
    ensures Collect(ClickEvents(content, name, o), DownloadOf) ==
      if o.render.Ok? && o.download.Ok? && o.save.Err? && o.fallbackError.None?
      then [(DataUrlPrefix + o.download.value.1, o.download.value.0)]
      else []
    ensures Collect(ClickEvents(content, name, o), NotificationOf) ==
      Collect(Collect(ClickEvents(content, name, o), ErrorOf), MessageOf)
  {
    var t := ClickEvents(content, name, o);
    var head := [Invoke(RenderQuartoFile(content.value, name))];
    var t1 := t[1..];
    assert t == head + t1;
    CollectConcat(head, t1, InvocationOf);
    CollectConcat(head, t1, ErrorOf);
    CollectConcat(head, t1, DownloadOf);
    CollectConcat(head, t1, NotificationOf);
    match o.render {
      case Err(e) =>
        HandleErrorEffects([Text(RenderFailedLabel), e]);
      case Ok(htmlPath) =>
        var head2 := [Invoke(DownloadRenderedHtml(htmlPath))];
        var t2 := t1[1..];
        assert t1 == head2 + t2;
        CollectConcat(head2, t2, InvocationOf);
        CollectConcat(head2, t2, ErrorOf);
        CollectConcat(head2, t2, DownloadOf);
        CollectConcat(head2, t2, NotificationOf);
        match o.download {
          case Err(e) =>
            HandleErrorEffects([Text(DownloadFailedLabel), e]);
          case Ok((fileName, base64)) =>
            var head3 := [Invoke(SaveHtmlFile(htmlPath, fileName))];
            var t3 := t2[1..];
            assert t2 == head3 + t3;
            CollectConcat(head3, t3, InvocationOf);
            CollectConcat(head3, t3, ErrorOf);
            CollectConcat(head3, t3, DownloadOf);
            CollectConcat(head3, t3, NotificationOf);
            SaveStepViews(base64, fileName, o.save, o.fallbackError, t3);
        }
    }
  }

  /** When the render and the fetch succeed there is exactly one native save
      attempt, and the browser fallback runs exactly when that save fails
      (and does not itself throw), with href `data:text/html;base64,<base64>`
      and the fetched file name. */
  lemma OneSaveAttempt(content: Option<string>, name: Option<string>, o: Outcomes)
    requires Fetched(content, o)
    ensures |Collect(Collect(ClickEvents(content, name, o), InvocationOf), SaveCallOf)| == 1
    ensures |Collect(ClickEvents(content, name, o), DownloadOf)| == 1 <==> o.save.Err? && o.fallbackError.None?
  {
    ClickViews(content, name, o);
    var a := [RenderQuartoFile(content.value, name)];
    var b := [DownloadRenderedHtml(o.render.value)];
    var c := [SaveHtmlFile(o.render.value, o.download.value.0)];
    assert Collect(ClickEvents(content, name, o), InvocationOf) == a + b + c;
    CollectConcat(a + b, c, SaveCallOf);
    CollectConcat(a, b, SaveCallOf);
  }

  function SaveCallOf(c: Command): Option<Command> {
    if c.SaveHtmlFile? then Some(c) else None
  }

  // ---------------------------------------------------------------------------
  // Joining the page to the backend commands

  /** A command's `Err(message)` reaches the page as the rejection value
      `message`. */
  function Rejected<T>(r: Result<T, string>): Result<T, Arg> {
    match r
    case Ok(v) => Ok(v)
    case Err(e) => Err(Text(e))
  }

  /** When the fetch step is the backend's `download_rendered_html`, the native
      save is asked to propose the name the backend derived from the rendered
      path, and a fallback download uses that same name. */
  lemma FetchedNameFlowsToSave(
    content: Option<string>, name: Option<string>, htmlPath: string,
    read: string -> Result<Backend.Bytes, string>, encode: Backend.Bytes -> string,
    save: Result<string, Arg>)
    requires Staged(content) && read(htmlPath).Ok?
    ensures var o := Outcomes(Ok(htmlPath), Rejected(Backend.DownloadRenderedHtml(htmlPath, read, encode)), save, None);
      && Collect(ClickEvents(content, name, o), InvocationOf)
         == [RenderQuartoFile(content.value, name), DownloadRenderedHtml(htmlPath), SaveHtmlFile(htmlPath, Backend.DownloadName(htmlPath))]
      && Collect(ClickEvents(content, name, o), DownloadOf)
         == if save.Err? then [(DataUrlPrefix + encode(read(htmlPath).value), Backend.DownloadName(htmlPath))] else []
  {
    var o := Outcomes(Ok(htmlPath), Rejected(Backend.DownloadRenderedHtml(htmlPath, read, encode)), save, None);
    ClickViews(content, name, o);
  }

  /** A save dialog the user cancels makes `save_html_file` fail, so the page
      falls back to a browser download of the fetched HTML and reports the
      cancellation under the save label. */
  lemma CancelledSaveFallsBack(
    content: Option<string>, name: Option<string>, htmlPath: string, fileName: string, base64: string,
    read: string -> Result<Backend.Bytes, string>, write: (string, Backend.Bytes) -> Option<string>)
    requires Staged(content) && read(htmlPath).Ok?
    ensures var saved := Backend.SaveHtmlFile(htmlPath, Some(fileName), read, Backend.Chosen(None), write);
      var o := Outcomes(Ok(htmlPath), Ok((fileName, base64)), Rejected(saved.result), None);
      && saved.written.None?
      && Collect(ClickEvents(content, name, o), DownloadOf) == [(DataUrlPrefix + base64, fileName)]
      && Collect(ClickEvents(content, name, o), ErrorOf) == [[Text(SaveFailedLabel), Text(Backend.CancelledMessage)]]
  {
    var saved := Backend.SaveHtmlFile(htmlPath, Some(fileName), read, Backend.Chosen(None), write);
    var o := Outcomes(Ok(htmlPath), Ok((fileName, base64)), Rejected(saved.result), None);
    ClickViews(content, name, o);
  }

  // ---------------------------------------------------------------------------
  // The page

  lemma AppendAssoc(a: seq<Event>, b: seq<Event>, c: seq<Event>)
    ensures a + b + c == a + (b + c)
  {
  }

  class Page {
    const hasUpload: bool
    const hasRenderButton: bool
    /** Whether the render button is disabled in the markup; no handler ever
        changes it. */
    const renderDisabled: bool
    /** Whether the name `mdHeaderInfo`, which this script never declares,
        resolves when a rejected upload refers to it. If it does not, the
        reference throws and the rest of that handler is skipped. */
    const headerInfoResolves: bool
    const hasIndicator: bool
    const hasLabel: bool
    const hasTooltip: bool

    var lastMdContent: Option<string>
    var lastMdName: Option<string>
    var lastHtmlPath: Option<string>
    /** Files whose `readAsText` has been started and has not completed. */
    var pending: seq<File>
    var view: View
    var trace: seq<Event>

    constructor(hasUpload: bool, hasRenderButton: bool, renderDisabled: bool, headerInfoResolves: bool,
                hasIndicator: bool, hasLabel: bool, hasTooltip: bool)
      ensures this.hasUpload == hasUpload && this.hasRenderButton == hasRenderButton
      ensures this.renderDisabled == renderDisabled && this.headerInfoResolves == headerInfoResolves
      ensures this.hasIndicator == hasIndicator && this.hasLabel == hasLabel && this.hasTooltip == hasTooltip
      ensures lastMdContent == None && lastMdName == None && lastHtmlPath == None
      ensures pending == [] && trace == []
      ensures view == View(None, None, None, None, None, None)
    {
      this.hasUpload := hasUpload;
      this.hasRenderButton := hasRenderButton;
      this.renderDisabled := renderDisabled;
      this.headerInfoResolves := headerInfoResolves;
      this.hasIndicator := hasIndicator;
      this.hasLabel := hasLabel;
      this.hasTooltip := hasTooltip;
      lastMdContent, lastMdName, lastHtmlPath := None, None, None;
      pending := [];
      view := View(None, None, None, None, None, None);
      trace := [];
    }

    /** The upload input's `change` event with `file` selected (`None` when the
        selection is empty). A file whose name passes the gate starts being
        read and shows the render button; any other file is refused with a
        notification and cleared from the input, and nothing staged changes. */
    method OnChange(file: Option<File>)
      requires hasUpload
      modifies this
      ensures var accepted := file.Some? && IsMarkdownName(file.value.name);
        var refused := file.Some? && !accepted;
        && trace == old(trace) + (if refused then [Notify(OnlyMarkdownMessage)] else [])
        && pending == old(pending) + (if accepted then [file.value] else [])
        && view.inputFile == (if accepted then Some(file.value.name) else None)
        && view.renderShown ==
             (if accepted && hasRenderButton then Some(true)
              else if refused && headerInfoResolves && hasRenderButton then Some(false)
              else old(view.renderShown))
        && view == old(view).(inputFile := view.inputFile, renderShown := view.renderShown)
      ensures lastMdContent == old(lastMdContent) && lastMdName == old(lastMdName) && lastHtmlPath == old(lastHtmlPath)
    {
      view := view.(inputFile := if file.Some? then Some(file.value.name) else None);
      if file.None? {
        return;
      }
      var f := file.value;
      if !IsMarkdownName(f.name) {
        trace := trace + [Notify(OnlyMarkdownMessage)];
        view := view.(inputFile := None);
        if !headerInfoResolves {
          return;
        }
        if hasRenderButton {
          view := view.(renderShown := Some(false));
        }
        return;
      }
      pending := pending + [f];
      if hasRenderButton {
        view := view.(renderShown := Some(true));
      }
    }

    /** The `FileReader` started for `pending[i]` has finished: its text and
        name become the staged upload. */
    method OnLoad(i: nat)
      requires i < |pending|
      modifies this
      ensures lastMdContent == Some(old(pending[i].text)) && lastMdName == Some(old(pending[i].name))
      ensures pending == old(pending[..i] + pending[i + 1..])
      ensures lastHtmlPath == old(lastHtmlPath) && view == old(view) && trace == old(trace)
    {
      lastMdContent := Some(pending[i].text);
      lastMdName := Some(pending[i].name);
      pending := pending[..i] + pending[i + 1..];
    }

    /** A click on the render button, whose awaited steps settle to `o`. A
        disabled button ignores it; otherwise its effects are `ClickEvents`,
        and a successful render records the returned path. */
    method OnRenderClick(o: Outcomes)
      requires hasRenderButton
      modifies this
      ensures trace == old(trace) + (if renderDisabled then [] else ClickEvents(old(lastMdContent), old(lastMdName), o))
      ensures lastHtmlPath ==
        if !renderDisabled && Staged(old(lastMdContent)) && o.render.Ok? then Some(o.render.value) else old(lastHtmlPath)
      ensures lastMdContent == old(lastMdContent) && lastMdName == old(lastMdName)
      ensures pending == old(pending) && view == old(view)
    {
      if renderDisabled {
        return;
      }
      if !Staged(lastMdContent) {
        trace := trace + [ConsoleLog(NoContentMessage)];
        return;
      }
      var before := trace;
      var call := [Invoke(RenderQuartoFile(lastMdContent.value, lastMdName))];
      trace := trace + call;
      match o.render {
        case Err(e) =>
          trace := trace + HandleError([Text(RenderFailedLabel), e]);
          AppendAssoc(before, call, HandleError([Text(RenderFailedLabel), e]));
        case Ok(htmlPath) =>
          lastHtmlPath := Some(htmlPath);
          FetchAndSave(htmlPath, o);
          AppendAssoc(before, call, FetchEvents(htmlPath, o));
      }
    }

    /** The steps of a click after a successful render: fetch the HTML at
        `htmlPath` with `download_rendered_html`, then save it. */
    method FetchAndSave(htmlPath: string, o: Outcomes)
      modifies this
      ensures trace == old(trace) + FetchEvents(htmlPath, o)
      ensures lastMdContent == old(lastMdContent) && lastMdName == old(lastMdName) && lastHtmlPath == old(lastHtmlPath)
      ensures pending == old(pending) && view == old(view)
    {
      var before := trace;
      var call := [Invoke(DownloadRenderedHtml(htmlPath))];
      trace := trace + call;
      match o.download {
        case Err(e) =>
          trace := trace + HandleError([Text(DownloadFailedLabel), e]);
          AppendAssoc(before, call, HandleError([Text(DownloadFailedLabel), e]));
        case Ok((fileName, base64)) =>
          SaveOrFallBack(htmlPath, fileName, base64, o.save, o.fallbackError);
      }
    }

    /** The save step of a click: asks `save_html_file` to save `htmlPath`
        proposing `fileName`; when that fails, downloads `base64` through a
        temporary anchor instead. */
    method SaveOrFallBack(htmlPath: string, fileName: string, base64: string, save: Result<string, Arg>, fallbackError: Option<Arg>)
      modifies this
      ensures trace == old(trace) + [Invoke(SaveHtmlFile(htmlPath, fileName))] + SaveEvents(fileName, base64, save, fallbackError)
      ensures lastMdContent == old(lastMdContent) && lastMdName == old(lastMdName) && lastHtmlPath == old(lastHtmlPath)
      ensures pending == old(pending) && view == old(view)
    {
      trace := trace + [Invoke(SaveHtmlFile(htmlPath, fileName))];
      var afterCall := trace;
      match save {
        case Ok(result) =>
          trace := trace + [ConsoleLog(result)];
        case Err(e) =>
          var report := HandleError([Text(SaveFailedLabel), e]);
          trace := trace + report;
          match fallbackError {
            case None =>
              var fallback := [AnchorDownload(DataUrlPrefix + base64, fileName), ConsoleLog(FallbackDoneMessage)];
              trace := trace + fallback;
              AppendAssoc(afterCall, report, fallback);
            case Some(x) =>
              trace := trace + HandleError([Text(DownloadFailedLabel), x]);
              AppendAssoc(afterCall, report, HandleError([Text(DownloadFailedLabel), x]));
          }
      }
    }

    /** Shows whether Quarto is available: the indicator turns green or red,
        and the upload label is enabled (titled `Upload`, tooltip hidden) or
        disabled (untitled, tooltip shown). Nothing happens without the
        indicator; the label and the tooltip change only if present. */
    method SetQuartoUI(installed: bool)
      modifies this
      ensures !hasIndicator ==> view == old(view)
      ensures hasIndicator ==> view.indicatorColor == Some(if installed then InstalledColor else MissingColor)
      ensures hasIndicator && hasLabel ==>
        view.labelDisabled == Some(!installed) && view.labelTitle == Some(if installed then EnabledTitle else "")
      ensures view.tooltipShown == if hasIndicator && hasLabel && hasTooltip then Some(!installed) else old(view.tooltipShown)
      ensures !hasLabel ==> view.labelDisabled == old(view.labelDisabled) && view.labelTitle == old(view.labelTitle)
      ensures view.inputFile == old(view.inputFile) && view.renderShown == old(view.renderShown)
      ensures lastMdContent == old(lastMdContent) && lastMdName == old(lastMdName) && lastHtmlPath == old(lastHtmlPath)
      ensures pending == old(pending) && trace == old(trace)
    {
      if !hasIndicator {
        return;
      }
      view := view.(indicatorColor := Some(if installed then InstalledColor else MissingColor));
      if hasLabel {
        view := view.(labelDisabled := Some(!installed), labelTitle := Some(if installed then EnabledTitle else ""));
        if hasTooltip {
          view := view.(tooltipShown := Some(!installed));
        }
      }
    }

    /** The probe run once on load: when the indicator exists and `invoke` is a
        function, `check_quarto_installed` is invoked and its outcome sets the
        availability view. */
    method Probe(invokeIsFunction: bool, outcome: Result<string, Arg>)
      modifies this
      ensures var probed := hasIndicator && invokeIsFunction;
        && trace == old(trace) + (if probed then [Invoke(CheckQuartoInstalled)] else [])
        && view == if !probed then old(view) else old(view).(
             indicatorColor := Some(if outcome.Ok? then InstalledColor else MissingColor),
             labelDisabled := if hasLabel then Some(outcome.Err?) else old(view.labelDisabled),
             labelTitle := if hasLabel then Some(if outcome.Ok? then EnabledTitle else "") else old(view.labelTitle),
             tooltipShown := if hasLabel && hasTooltip then Some(outcome.Err?) else old(view.tooltipShown))
      ensures lastMdContent == old(lastMdContent) && lastMdName == old(lastMdName) && lastHtmlPath == old(lastHtmlPath)
      ensures pending == old(pending)
    {
      if hasIndicator && invokeIsFunction {
        trace := trace + [Invoke(CheckQuartoInstalled)];
        SetQuartoUI(outcome.Ok?);
      }
    }
  }
}
