/**
  The keystroke engine (`TextInput` of `@keybr/textinput`) seen from the outside.
  How it diffs keystrokes, lays out lines, computes the remaining suffix and
  decides completion is not modelled: those fields change arbitrarily on input.
  What the engine receives and what it answers is recorded in the ghost
  `received` log, so that callers can say what they forwarded and returned.
*/
module TextInputs {
  import opened Unicode
  import opened Preferences

  /** One keystroke sample the text-input engine accumulates while the user types. */
  datatype Step = Step(codePoint: CodePoint, timeStamp: int, typo: bool)

  /** The typing statistics built from the engine's steps (`newStats`). Their
      aggregation (speed, accuracy, timing) is not part of this model. */
  datatype Stats = Stats(steps: seq<Step>)

  function NewStats(steps: seq<Step>): Stats
  {
    Stats(steps)
  }

  /** A raw input event from the UI. */
  type TextInputEvent(==, 0)

  /** The engine's per-keystroke judgment, opaque to the session. */
  type Feedback(==, 0)

  /** The engine's rendering of the text as lines. */
  type LineList(==, 0)

  /** One event delivered to the engine together with the feedback it returned. */
  datatype Exchange = Exchange(event: TextInputEvent, feedback: Feedback)

  class TextInput {
    const text: string
    const settings: TextInputSettings
    var lines: LineList
    var suffix: seq<CodePoint>
    var completed: bool
    var steps: seq<Step>
    ghost var received: seq<Exchange>

    /** A new engine over `text`, before any input. */
    constructor (text: string, settings: TextInputSettings)
      ensures this.text == text && this.settings == settings
      ensures received == []
    {
      this.text := text;
      this.settings := settings;
      lines := *;
      suffix := *;
      completed := *;
      steps := *;
      received := [];
    }

    function GetLines(): LineList
      reads this
    {
      lines
    }

    function GetSuffix(): seq<CodePoint>
      reads this
    {
      suffix
    }

    function GetSteps(): seq<Step>
      reads this
    {
      steps
    }

    /** Ingests one event. The engine's new view, steps and completion flag
        are whatever its internal logic makes of the event. */
    method OnTextInput(event: TextInputEvent) returns (feedback: Feedback)
      modifies this
      ensures received == old(received) + [Exchange(event, feedback)]
    {
      feedback := *;
      lines := *;
      suffix := *;
      completed := *;
      steps := *;
      received := received + [Exchange(event, feedback)];
    }
  }
}
