/**
  The user settings the practice session reads (`@keybr/settings`), reduced to
  the values it uses: whether the user is new, the keyboard layout, the lesson
  type's text type, and the engine and display configurations derived from them.
*/
module Preferences {

  /** Opaque identifiers of the keyboard layout and of the kind of lesson text. */
  type Layout(==, 0)
  type TextType(==, 0)

  /** Configuration handed to the text-input engine. */
  type TextInputSettings(==, 0)

  /** Configuration handed to the text display. */
  type TextDisplaySettings(==, 0)

  datatype LessonType = LessonType(textType: TextType)

  datatype Settings = Settings(
    isNew: bool,
    layout: Layout,
    lessonType: LessonType,
    textInput: TextInputSettings,
    textDisplay: TextDisplaySettings)

  /** `toTextInputSettings`: the engine configuration carried by the settings. */
  function ToTextInputSettings(settings: Settings): TextInputSettings
  {
    settings.textInput
  }

  /** `toTextDisplaySettings`: the display configuration carried by the settings. */
  function ToTextDisplaySettings(settings: Settings): TextDisplaySettings
  {
    settings.textDisplay
  }
}
