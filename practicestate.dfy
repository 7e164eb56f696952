/**
  The state of one typing-practice session (`PracticeState`) and the summary of a
  previously completed lesson (`makeLastLesson`).

  The session fixes its key statistics and key selection once, at construction,
  and keeps them for its whole life; it replaces the keystroke engine on reset and
  skip, forwards every input event to the engine, keeps a cached copy of the
  engine's lines and suffix, and hands a result record to the append sink each
  time the engine reports the text as completed.
*/
module Practice {
  import opened Unicode
  import opened Options
  import opened Results
  import opened Preferences
  import opened TextInputs
  import opened Lessons

  /** A physical key of the on-screen keyboard. */
  type KeyId(==, 0)

  /** A hint to the user to watch a key that has never been practised. */
  datatype Announcement = Announcement(lessonKey: LessonKey)

  /** A finished lesson's record with its hits and misses per code point. */
  datatype LastLesson = LastLesson(
    result: Result,
    hits: map<CodePoint, nat>,
    misses: map<CodePoint, nat>)

  // ---------------------------------------------------------------------------
  // Announcements
  // ---------------------------------------------------------------------------

  /** True when the session should announce `key`: there is some history, the
      key selection reports `key` as its focused key, and the statistics hold no
      sample for that key's letter. */
  ghost predicate Announces(results: seq<Result>, keyStatsMap: KeyStatsMap, lessonKeys: LessonKeys, key: LessonKey)
  {
    && |results| > 0
    && lessonKeys.FindFocusedKey() == Some(key)
    && |keyStatsMap(key.letter).samples| == 0
  }

  /** The announcements a session computes from its history, statistics and key
      selection: at most one, and one exactly when the focused key is announced. */
  function FocusAnnouncements(results: seq<Result>, keyStatsMap: KeyStatsMap, lessonKeys: LessonKeys): (r: seq<Announcement>)
    ensures |r| <= 1
    ensures |results| == 0 ==> r == []
    ensures lessonKeys.FindFocusedKey().None? ==> r == []
    ensures forall a :: a in r <==> Announces(results, keyStatsMap, lessonKeys, a.lessonKey)
  {
    if |results| > 0 then
      match lessonKeys.FindFocusedKey()
      case None => []
      case Some(focusedKey) =>
        if |keyStatsMap(focusedKey.letter).samples| == 0 then [Announcement(focusedKey)] else []
    else
      []
  }

  // ---------------------------------------------------------------------------
  // The session
  // ---------------------------------------------------------------------------

  class PracticeState {
    const settings: Settings
    const lesson: Lesson
    const results: seq<Result>
    const appendResult: ResultSink
    const showTour: bool
    const textInputSettings: TextInputSettings
    const textDisplaySettings: TextDisplaySettings
    const keyStatsMap: KeyStatsMap
    const lessonKeys: LessonKeys

    var announcements: seq<Announcement>
    var lastLesson: Option<LastLesson>
    var textInput: TextInput?
    var lines: LineList
    var suffix: seq<CodePoint>
    var depressedKeys: seq<KeyId>

    /** The session invariant: there is an engine, opened with the session's
        engine settings, and the cached lines and suffix are the engine's. */
    ghost predicate Valid()
      reads this, textInput
    {
      && textInput != null
      && textInput.settings == textInputSettings
      && lines == textInput.GetLines()
      && suffix == textInput.GetSuffix()
    }

    constructor (settings: Settings, lesson: Lesson, results: seq<Result>, appendResult: ResultSink)
      modifies lesson
      ensures Valid() && fresh(textInput)
      ensures this.settings == settings && this.lesson == lesson
      ensures this.results == results && this.appendResult == appendResult
      ensures showTour == settings.isNew
      ensures textInputSettings == ToTextInputSettings(settings)
      ensures textDisplaySettings == ToTextDisplaySettings(settings)
      ensures keyStatsMap == lesson.analyze(results)
      ensures lessonKeys == lesson.update(keyStatsMap)
      ensures lesson.draws == old(lesson.draws) + [Draw(lessonKeys, textInput.text)]
      ensures textInput.received == []
      ensures announcements == FocusAnnouncements(results, keyStatsMap, lessonKeys)
      ensures lastLesson == None && depressedKeys == []
      ensures appendResult.log == old(appendResult.log)
    {
      this.settings := settings;
      this.lesson := lesson;
      this.results := results;
      this.appendResult := appendResult;
      showTour := settings.isNew;
      textInputSettings := ToTextInputSettings(settings);
      textDisplaySettings := ToTextDisplaySettings(settings);
      var stats := lesson.analyze(results);
      keyStatsMap := stats;
      lessonKeys := lesson.update(stats);
      announcements := [];
      lastLesson := None;
      textInput := null;
      depressedKeys := [];
      new;
      var fragment := lesson.Generate(lessonKeys);
      Reset(fragment);
      ComputeAnnouncements();
    }

    /** Restarts the lesson on the text the current engine holds. */
    method ResetLesson()
      requires Valid()
      modifies this`textInput, this`lines, this`suffix
      ensures Valid() && fresh(textInput)
      ensures textInput.text == old(textInput.text)
      ensures textInput.received == []
      ensures lesson.draws == old(lesson.draws)
      ensures appendResult.log == old(appendResult.log)
      ensures announcements == old(announcements)
      ensures lastLesson == old(lastLesson) && depressedKeys == old(depressedKeys)
    {
      Reset(textInput.text);
    }

    /** Starts a new lesson on a text freshly drawn from the session's key selection. */
    method SkipLesson()
      requires Valid()
      modifies this`textInput, this`lines, this`suffix, lesson
      ensures Valid() && fresh(textInput)
      ensures lesson.draws == old(lesson.draws) + [Draw(lessonKeys, textInput.text)]
      ensures textInput.received == []
      ensures appendResult.log == old(appendResult.log)
      ensures announcements == old(announcements)
      ensures lastLesson == old(lastLesson) && depressedKeys == old(depressedKeys)
    {
      var fragment := lesson.Generate(lessonKeys);
      Reset(fragment);
    }

    /** Forwards `event` to the engine and returns the engine's feedback. When the
        engine reports the text as completed, one record built from the engine's
        steps, stamped with `now`, is appended to the sink. */
    method OnTextInput(event: TextInputEvent, now: int) returns (feedback: Feedback)
      requires Valid()
      modifies this`lines, this`suffix, textInput, appendResult
      ensures Valid() && textInput == old(textInput)
      ensures textInput.received == old(textInput.received) + [Exchange(event, feedback)]
      ensures !textInput.completed ==> appendResult.log == old(appendResult.log)
      ensures textInput.completed ==>
        && |appendResult.log| == |old(appendResult.log)| + 1
        && appendResult.log[..|old(appendResult.log)|] == old(appendResult.log)
        && RecordOf(appendResult.log[|old(appendResult.log)|], now)
      ensures announcements == old(announcements)
      ensures lastLesson == old(lastLesson) && depressedKeys == old(depressedKeys)
    {
      feedback := textInput.OnTextInput(event);
      lines := textInput.GetLines();
      suffix := textInput.GetSuffix();
      if textInput.completed {
        var result := FromStats(
          settings.layout,
          settings.lessonType.textType,
          now,
          NewStats(textInput.GetSteps()));
        appendResult.Append(result);
      }
    }

    /** `result` is the record of the current engine's lesson, finished at `now`. */
    ghost predicate RecordOf(result: Result, now: int)
      reads this, textInput
      requires textInput != null
    {
      && result.layout == settings.layout
      && result.textType == settings.lessonType.textType
      && result.timeStamp == now
      && result.stats.steps == textInput.steps
    }

    /** Installs a new engine over `fragment` and refreshes the cached view from it. */
    method Reset(fragment: string)
      modifies this`textInput, this`lines, this`suffix
      ensures Valid() && fresh(textInput)
      ensures textInput.text == fragment && textInput.received == []
    {
      textInput := new TextInput(fragment, textInputSettings);
      lines := textInput.GetLines();
      suffix := textInput.GetSuffix();
    }

    /** Pushes the focus announcement, if any, onto the announcements. */
    method ComputeAnnouncements()
      modifies this`announcements
      ensures announcements == old(announcements) + FocusAnnouncements(results, keyStatsMap, lessonKeys)
    {
      if |results| > 0 {
        var focusedKey := lessonKeys.FindFocusedKey();
        if focusedKey.Some? {
          var keyStats := keyStatsMap(focusedKey.value.letter);
          if |keyStats.samples| == 0 {
            announcements := announcements + [Announcement(focusedKey.value)];
          }
        }
      }
    }
  }

  /** A client of the session: two resets restart the same text, and a skip draws
      its text from the same key selection as construction did; none of it
      appends a result. */
  method ResetAndSkipScenario(
    settings: Settings,
    analyze: seq<Result> -> KeyStatsMap,
    update: KeyStatsMap -> LessonKeys,
    results: seq<Result>)
    returns (first: string, afterResets: string, ghost draws: seq<Draw>, ghost appended: nat)
    ensures afterResets == first
    ensures |draws| == 2
    ensures draws[0].keys == draws[1].keys == update(analyze(results))
    ensures draws[0].text == first
    ensures appended == 0
  {
    var lesson := new Lesson(analyze, update);
    var sink := new ResultSink();
    var state := new PracticeState(settings, lesson, results, sink);
    first := state.textInput.text;
    state.ResetLesson();
    state.ResetLesson();
    afterResets := state.textInput.text;
    state.SkipLesson();
    draws := lesson.draws;
    appended := |sink.log|;
  }

  // ---------------------------------------------------------------------------
  // The last lesson's histograms
  // ---------------------------------------------------------------------------

  /** Which count of a histogram sample a histogram collects. */
  datatype Column = Hits | Misses

  function Count(sample: HistogramSample, column: Column): nat
  {
    match column
    case Hits => sample.hitCount
    case Misses => sample.missCount
  }

  /** The histogram obtained by setting, entry after entry, each entry's code
      point to its count: a later entry for the same code point overwrites an
      earlier one. */
  function Tally(samples: seq<HistogramSample>, column: Column): map<CodePoint, nat>
    decreases |samples|
  {
    if samples == [] then map[]
    else
      var n := |samples| - 1;
      Tally(samples[..n], column)[samples[n].codePoint := Count(samples[n], column)]
  }

  /** The code points a record's breakdown lists. */
  function CodePoints(samples: seq<HistogramSample>): set<CodePoint>
    decreases |samples|
  {
    if samples == [] then {}
    else
      var n := |samples| - 1;
      CodePoints(samples[..n]) + {samples[n].codePoint}
  }

  /** A code point is in `CodePoints(samples)` exactly when some entry lists it. */
  lemma {:induction false} CodePointsListed(samples: seq<HistogramSample>, c: CodePoint)
    ensures c in CodePoints(samples) <==> exists i :: 0 <= i < |samples| && samples[i].codePoint == c
    decreases |samples|
  {
    if samples != [] {
      var n := |samples| - 1;
      CodePointsListed(samples[..n], c);
      if c in CodePoints(samples) && c != samples[n].codePoint {
        var i :| 0 <= i < n && samples[..n][i].codePoint == c;
        assert samples[i] == samples[..n][i];
      }
      if i :| 0 <= i < |samples| && samples[i].codePoint == c {
        if i < n {
          assert samples[..n][i] == samples[i];
        }
      }
    }
  }

  /** Entry `i` is the last one in `samples` for its code point. */
  predicate LastOccurrence(samples: seq<HistogramSample>, i: int)
  {
    && 0 <= i < |samples|
    && forall j :: i < j < |samples| ==> samples[j].codePoint != samples[i].codePoint
  }

  /** A tally holds exactly the code points of the breakdown: none invented, none dropped. */
  lemma {:induction false} TallyKeys(samples: seq<HistogramSample>, column: Column)
    ensures Tally(samples, column).Keys == CodePoints(samples)
    decreases |samples|
  {
    if samples != [] {
      TallyKeys(samples[..|samples| - 1], column);
    }
  }

  /** A tally maps each code point to the count of the last entry listing it. */
  lemma {:induction false} TallyLastWins(samples: seq<HistogramSample>, column: Column, i: int)
    requires LastOccurrence(samples, i)
    ensures samples[i].codePoint in Tally(samples, column)
    ensures Tally(samples, column)[samples[i].codePoint] == Count(samples[i], column)
    decreases |samples|
  {
    var n := |samples| - 1;
    if i < n {
      assert LastOccurrence(samples[..n], i) by {
        forall j | i < j < n
          ensures samples[..n][j].codePoint != samples[..n][i].codePoint
        {
          assert samples[..n][j] == samples[j];
        }
      }
      TallyLastWins(samples[..n], column, i);
      assert samples[n].codePoint != samples[i].codePoint;
    }
  }

  /** `makeLastLesson`: the record itself, and fresh hits and misses histograms
      filled from the record's per-character breakdown, one entry at a time. */
  method MakeLastLesson(result: Result) returns (last: LastLesson)
    ensures last.result == result
    ensures last.hits == Tally(result.histogram, Hits)
    ensures last.misses == Tally(result.histogram, Misses)
    ensures last.hits.Keys == CodePoints(result.histogram)
    ensures last.misses.Keys == CodePoints(result.histogram)
    ensures forall i :: LastOccurrence(result.histogram, i) ==>
      result.histogram[i].codePoint in last.hits && last.hits[result.histogram[i].codePoint] == result.histogram[i].hitCount
    ensures forall i :: LastOccurrence(result.histogram, i) ==>
      result.histogram[i].codePoint in last.misses && last.misses[result.histogram[i].codePoint] == result.histogram[i].missCount
  {
    var samples := result.histogram;
    var hits: map<CodePoint, nat> := map[];
    var misses: map<CodePoint, nat> := map[];
    for k := 0 to |samples|
      invariant hits == Tally(samples[..k], Hits)
      invariant misses == Tally(samples[..k], Misses)
    {
      assert samples[..k + 1][..k] == samples[..k];
      hits := hits[samples[k].codePoint := samples[k].hitCount];
      misses := misses[samples[k].codePoint := samples[k].missCount];
    }
    assert samples[..|samples|] == samples;
    last := LastLesson(result, hits, misses);
    TallyKeys(samples, Hits);
    TallyKeys(samples, Misses);
    forall i | LastOccurrence(samples, i)
      ensures samples[i].codePoint in hits && hits[samples[i].codePoint] == samples[i].hitCount
      ensures samples[i].codePoint in misses && misses[samples[i].codePoint] == samples[i].missCount
    {
      TallyLastWins(samples, Hits, i);
      TallyLastWins(samples, Misses, i);
    }
  }
}
