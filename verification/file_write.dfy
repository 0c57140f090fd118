/** How a call of `File.WriteAllText(path, text)` ends. The call opens its
    target with truncation before it writes, so a failure after the open
    loses the old content: what is left is empty or a proper prefix of
    `text`. `L` describes what a later read can make of that remnant. */
module FileWrite {

  datatype Write<+L> =
    | Written               // the whole text is on disk
    | NotOpened             // the call failed before opening the target, which is as it was
    | CutShort(remnant: L)  // the call failed after truncating the target
}
