/** What Python's patterns share. */
module Texts {

  /** The end anchor matches at the end or just before one final newline. */
  function DropFinalNewline(s: string): string {
    if s != "" && s[|s| - 1] == '\n' then s[..|s| - 1] else s
  }
}
