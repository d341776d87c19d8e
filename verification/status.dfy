/**
 * The status line of the browser clients: `updateStatus(message, isError)`
 * in viewer-raw and viewer-sdk (identical in both), and the viewer's
 * `setStatus(msg, type)`. The console is a ghost log of lines.
 */
module Status {

  /** The className `updateStatus` gives the status element. */
  function UpdateClass(isError: bool): string
  {
    if isError then "status error" else "status"
  }

  /** The console line `updateStatus` writes. */
  function UpdateLogLine(message: string, isError: bool): string
  {
    (if isError then "[ERROR] " else "[INFO] ") + message
  }

  /**
   * The className `setStatus` gives: `'status'` alone for an empty (or absent)
   * type, otherwise `'status '` followed by the type.
   */
  function SetClass(level: string): (c: string)
    ensures |c| >= 6 && c[..6] == "status"
    ensures c == "status" <==> level == ""
    ensures level != "" ==> c == "status " + level
  {
    "status" + (if level != "" then " " + level else "")
  }

  /** The console line `setStatus` writes: the type in brackets, `info` when there is none. */
  function SetLogLine(message: string, level: string): string
  {
    "[" + (if level != "" then level else "info") + "] " + message
  }

  /** The two variants agree: an error update is a `setStatus` with type `error`, any other one with no type. */
  lemma UpdateAgreesWithSet(isError: bool)
    ensures UpdateClass(isError) == SetClass(if isError then "error" else "")
  {
  }

  /** The className determines the type it was set with. */
  lemma SetClassInjective(a: string, b: string)
    requires SetClass(a) == SetClass(b)
    ensures a == b
  {
    if a != "" && b != "" {
      assert SetClass(a)[7..] == a;
      assert SetClass(b)[7..] == b;
    }
  }

  /**
   * What the element shows, text and className, after `updateStatus`: the new
   * message and class when the element is present, what it showed before
   * otherwise.
   */
  function AfterUpdate(present: bool, before: (string, string), message: string, isError: bool): (string, string)
  {
    if present then (message, UpdateClass(isError)) else before
  }

  /** The status element and the console. */
  class StatusBar {
    /** Whether the page has the status element (`if (statusDiv)`). */
    const present: bool
    var text: string
    var className: string
    ghost var log: seq<string>

    /** The element's text and className. */
    function Display(): (string, string)
      reads this
    {
      (text, className)
    }

    constructor (present: bool)
      ensures this.present == present && text == "" && className == "" && log == []
    {
      this.present := present;
      text := "";
      className := "";
      log := [];
    }

    /** `updateStatus`: the element is updated only when present; the console line is written regardless. */
    method Update(message: string, isError: bool)
      modifies this
      ensures present ==> text == message && className == UpdateClass(isError)
      ensures !present ==> text == old(text) && className == old(className)
      ensures Display() == AfterUpdate(present, old(Display()), message, isError)
      ensures log == old(log) + [UpdateLogLine(message, isError)]
    {
      if present {
        text := message;
        className := UpdateClass(isError);
      }
      log := log + [UpdateLogLine(message, isError)];
    }

    /** `setStatus`: the viewer does not check for the element, so it must be there. */
    method Set(message: string, level: string)
      requires present
      modifies this
      ensures text == message && className == SetClass(level)
      ensures log == old(log) + [SetLogLine(message, level)]
    {
      text := message;
      className := SetClass(level);
      log := log + [SetLogLine(message, level)];
    }
  }
}
