/** The part of Bubble Tea both Go controllers rely on: the names of the key
    presses their `Update` distinguishes (`tea.KeyMsg.String()`). */
module Tea {
  /** "ctrl+c", "q", "up", "k", "down", "j", "enter", "r", and any other key. */
  datatype KeyName = CtrlC | KeyQ | KeyUp | KeyK | KeyDown | KeyJ | KeyEnter | KeyR | OtherKey
}
