/**
 The observable effects of the page script (src/main.js): the Tauri commands it
 invokes, the notifications it shows, what it writes to the console and the
 browser downloads it starts, recorded in order as a trace. `handleError`
 (src/main.js:2-12) is the one place that turns an error into a console error
 and a notification.
 */
module Js {
  import opened Wrappers
  import opened Strings

  /** A value passed to `handleError`: an object, shown as its
      `JSON.stringify` text (supplied, since the serialiser is not part of
      this model), or a primitive, shown as `String(value)`. */
  datatype Arg = Object(json: string) | Text(text: string)

  /** The Tauri commands the page invokes, with their arguments. */
  datatype Command =
    | CheckQuartoInstalled
    | RenderQuartoFile(mdContent: string, origName: Option<string>)
    | DownloadRenderedHtml(htmlPath: string)
    | SaveHtmlFile(htmlPath: string, defaultName: string)

  datatype Event =
    | Invoke(command: Command)
    | Notify(message: string)
    | ConsoleLog(line: string)
    | ConsoleError(args: seq<Arg>)
    /** A temporary anchor with this `href` and `download` name was clicked. */
    | AnchorDownload(href: string, fileName: string)

  function Render(a: Arg): string {
    match a
    case Object(json) => json
    case Text(t) => t
  }

  function Rendered(args: seq<Arg>): (r: seq<string>)
    ensures |r| == |args|
    ensures forall i :: 0 <= i < |args| ==> r[i] == Render(args[i])
  {
    if args == [] then [] else [Render(args[0])] + Rendered(args[1..])
  }

  /** The notification text: every argument rendered, separated by single
      spaces. */
  function Message(args: seq<Arg>): string {
    Join(Rendered(args), " ")
  }

  /** `handleError(...args)`: logs all arguments as one console error and,
      when there is at least one, shows their message as a notification. */
  function HandleError(args: seq<Arg>): seq<Event> {
    [ConsoleError(args)] + (if |args| > 0 then [Notify(Message(args))] else [])
  }

  /** The report of a failed step: a heading and the error it caught. */
  lemma LabelledMessage(heading: string, e: Arg)
    ensures Message([Text(heading), e]) == heading + " " + Render(e)
    ensures HandleError([Text(heading), e]) == [ConsoleError([Text(heading), e]), Notify(heading + " " + Render(e))]
  {
    var parts := [heading, Render(e)];
    assert Rendered([Text(heading), e]) == parts;
    assert parts[1..] == [Render(e)];
    assert Join(parts[1..], " ") == Render(e);
    assert Join(parts, " ") == heading + " " + Render(e);
  }

  /** When no argument renders with a space in it, the message splits back
      into the rendered arguments. */
  lemma MessageSplits(args: seq<Arg>)
    requires |args| > 0
    requires forall i :: 0 <= i < |args| ==> ' ' !in Render(args[i])
    ensures Split(Message(args), ' ') == Rendered(args)
  {
    var parts := Rendered(args);
    assert " " == [' '];
    SplitJoin(parts, ' ');
  }

  /** `handleError` logs exactly once and notifies exactly when it was given
      something to say. */
  lemma HandleErrorEffects(args: seq<Arg>)
    ensures Collect(HandleError(args), ErrorOf) == [args]
    ensures Collect(HandleError(args), NotificationOf) == if |args| > 0 then [Message(args)] else []
    ensures Collect(HandleError(args), InvocationOf) == []
    ensures Collect(HandleError(args), DownloadOf) == []
  {
    var t := HandleError(args);
    CollectConcat([ConsoleError(args)], t[1..], ErrorOf);
    CollectConcat([ConsoleError(args)], t[1..], NotificationOf);
    CollectConcat([ConsoleError(args)], t[1..], InvocationOf);
    CollectConcat([ConsoleError(args)], t[1..], DownloadOf);
    assert [ConsoleError(args)] + t[1..] == t;
  }

  // ---------------------------------------------------------------------------
  // Views of a trace

  /** The events `pick` selects, in trace order. */
  function Collect<E, T>(t: seq<E>, pick: E -> Option<T>): (r: seq<T>)
    ensures |r| <= |t|
  {
    if t == [] then []
    else match pick(t[0])
      case Some(x) => [x] + Collect(t[1..], pick)
      case None => Collect(t[1..], pick)
  }

  /** Collecting from two traces one after the other is collecting from each. */
  lemma {:induction false} CollectConcat<E, T>(a: seq<E>, b: seq<E>, pick: E -> Option<T>)
    ensures Collect(a + b, pick) == Collect(a, pick) + Collect(b, pick)
  {
    if a != [] {
      assert (a + b)[0] == a[0];
      assert (a + b)[1..] == a[1..] + b;
      CollectConcat(a[1..], b, pick);
    } else {
      assert a + b == b;
    }
  }

  function InvocationOf(e: Event): Option<Command> {
    if e.Invoke? then Some(e.command) else None
  }

  function NotificationOf(e: Event): Option<string> {
    if e.Notify? then Some(e.message) else None
  }

  function ErrorOf(e: Event): Option<seq<Arg>> {
    if e.ConsoleError? then Some(e.args) else None
  }

  function DownloadOf(e: Event): Option<(string, string)> {
    if e.AnchorDownload? then Some((e.href, e.fileName)) else None
  }

  /** The notification text of a report. */
  function MessageOf(args: seq<Arg>): Option<string> {
    Some(Message(args))
  }

  function LogOf(e: Event): Option<string> {
    if e.ConsoleLog? then Some(e.line) else None
  }
}
