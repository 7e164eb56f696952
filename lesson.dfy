/**
  The lesson policy (`Lesson` of `@keybr/lesson`) seen from the outside: it turns
  past results into per-key statistics (`analyze`), statistics into a key
  selection (`update`), and a key selection into a random text (`generate`).
  The first two are pure and kept as function values; `generate` is random, so
  its text is arbitrary, and every call is recorded in the ghost `draws` log.
*/
module Lessons {
  import opened Unicode
  import opened Options
  import opened Results

  /** One recorded sample of a key's typing speed and accuracy. */
  type KeySample(==, 0)

  datatype KeyStats = KeyStats(letter: CodePoint, samples: seq<KeySample>)

  /** `KeyStatsMap.get` answers for every letter, so the map is a total function. */
  type KeyStatsMap = CodePoint -> KeyStats

  datatype LessonKey = LessonKey(letter: CodePoint)

  /** The key selection a lesson's texts are drawn from. `focusedKey` is the
      answer of `findFocusedKey`, computed by the lesson policy. */
  datatype LessonKeys = LessonKeys(keys: seq<LessonKey>, focusedKey: Option<LessonKey>)
  {
    function FindFocusedKey(): Option<LessonKey>
    {
      focusedKey
    }
  }

  /** One call of `generate`: the key selection it was given and the text it returned. */
  datatype Draw = Draw(keys: LessonKeys, text: string)

  class Lesson {
    const analyze: seq<Result> -> KeyStatsMap
    const update: KeyStatsMap -> LessonKeys
    ghost var draws: seq<Draw>

    constructor (analyze: seq<Result> -> KeyStatsMap, update: KeyStatsMap -> LessonKeys)
      ensures this.analyze == analyze && this.update == update
      ensures draws == []
    {
      this.analyze := analyze;
      this.update := update;
      draws := [];
    }

    /** A random text drawn for `lessonKeys`. */
    method Generate(lessonKeys: LessonKeys) returns (text: string)
      modifies this
      ensures draws == old(draws) + [Draw(lessonKeys, text)]
    {
      text := *;
      draws := draws + [Draw(lessonKeys, text)];
    }
  }
}
