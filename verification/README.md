# Webkey: proofs about the terminal, the web server and the archive tools

Webkey serves a terminal, files and reverse connections from a phone to a browser. This project models the parts of
it whose behaviour is hardest to see from the code, and proves what they promise.

**The terminal** (`service/ShellInABox.js`). The browser holds a row as a list of styled runs, or as nothing at all,
and `putString` edits that list in place. The simple picture behind it is a grid of cells, each a character with a
colour and a style. `Cells.dfy` and `ScreenSpec.dfy` define that picture; `RowRuns.dfy` and `Screen.dfy` prove that the
run lists and the two ways of scrolling (row elements, copied segments) do to it what they should.
`TerminalSpec.dfy` is a terminal that takes one code unit at a time and shows it at once; `Terminal.dfy` is the class
that collects characters, parses escape sequences and decodes UTF-8, and its method `Vt100` is proved to reach the
same state. `Batching.dfy`, `EditingTheorems.dfy`, `TerminalInput.dfy`, `PlainText.dfy`, `CursorMoves.dfy`,
`HostCommands.dfy`, `Sequences.dfy`, `Repeated.dfy` and `TerminalRuns.dfy` prove what follows for strings, for the screen,
and for whole runs. `KeySender.dfy` is the way back: keys sent one request at a time.

**The worker pool and the connection throttle** (`service/mongoose.cpp`). `SocketQueue.dfy` is the ring of sockets;
`WorkerPool.dfy` and `Throttle.dfy` are state machines with one step for each thing a thread does between two points at
which other threads can be seen. Their invariants hold in every interleaving, with spurious wakeups.

**The web server's buffers.** `Md5.dfy` (RFC 1321), `RequestHead.dfy`, `RequestParser.dfy`, `RequestRoundTrip.dfy` (request
heads: RFC 2616 sections 4.2 and 5), `BodyReader.dfy`, `UrlCodec.dfy` (RFC 3986 section 2.1).

**Archives and codecs.** `ZipRepair.dfy` (APPNOTE.TXT sections 4.3.7, 4.3.12, 4.3.16), `ZipCrypt.dfy` (section 6.1) and
`Base64.dfy` (RFC 4648 section 4). `Bytes.dfy` and `Bits.dfy` hold what they share.

Where the code does something else than its documentation or the standard says, the model follows the code, and a
lemma gives the exact condition under which it does what it should:

- "Erase in display" from the last line but one forgets the last line (`EraseBelowIff`).
- Deleting or inserting characters up to the end of the line does nothing (`DeleteCharactersIff`, `InsertCharactersIff`).
- "Repeat" takes the character as it was drawn for input again (`RepeatIff`): in UTF-8 mode one that is not ASCII shows
  nothing (`AccentNotRepeated`), another may act as a control character (`GlyphRepeatedAsLineFeed`) or be looked up twice
  (`LookedUpTwice`).
- The cursor report in origin mode counts the top margin twice (`CursorReportIff`).
- A reset on the alternate screen brings back the attributes saved with the main one (`ResetIsNewIff`).
- A key request that completes after a reconnect is taken for the current one (`AtMostOneIff`,
  `OpenBoundReached`).
- Keys from 0x800 on are not sent as UTF-8 (`KeysAreUtf8Iff`, `ThirdDigitLacksEight`).
- The broadcast at shutdown misses a worker that is about to sleep (`BroadcastMisses`, `ShutdownHangs`, `ShutdownEnds`).
- A master that waits for room when the stop comes is left waiting unless a worker is about to take a socket
  (`MasterIsWoken`, `MasterHangs`, `FullRun`).
- `backdecrease` is called without the mutex, which lets the limit fall below 1 (`LimitKeptIff`,
  `LockedLimit`, `LimitReachesMinusOne`).
- The wait of the throttle is not repeated, so each wakeup without a signal can add a connection (`MostConnections`).
- A request head with an illegal byte is read differently depending on how it arrives (`ChunkingMatters`).
- A header value that begins with a colon or a space does not survive forwarding (`RoundTripIff`).
- Both screens save their character sets in one place, so a program on the alternate screen can change those of the
  main one (`FullScreenProgram`, `SetsOverwritten`).
- Cleaning a path can leave two separators together (`DoubleSeparatorIff`), and decoding takes in what lies behind its source
  exactly when that cuts off an escape (`DecodesAloneIff`, `EscapeReadsOn`).

Verify with `dafny verify dfyconfig.toml`.


## Model

| member | source | states |
|---|---|---|
| `RowRuns.FindRun` | service/ShellInABox.js:1674-1685 | finds the run that holds column x (or the last one) and the column at which it begins |
| `RowRuns.PadRuns` | service/ShellInABox.js:1688-1706 | a row that ends before x is continued with default blanks up to x, in a run of its own when the last one is styled; no two neighbouring runs get to look the same |
| `RowRuns.SpliceText` | service/ShellInABox.js:1708-1764 | the text replaces exactly the cells it covers in the run at x; what that run held behind the text stays behind it; the number of overrun cells still to be deleted is exact |
| `RowRuns.DeleteOverrun` | service/ShellInABox.js:1767-1780 | exactly the overrun cells are deleted from the following runs, whole runs and a part of one |
| `RowRuns.MergeNext` | service/ShellInABox.js:1782-1789 | joining with an equal-looking right neighbour changes no cell |
| `RowRuns.MergePrevious` | service/ShellInABox.js:1853-1861 | joining with an equal-looking left neighbour changes no cell and leaves no two equal-looking neighbours |
| `RowRuns.Prune` | service/ShellInABox.js:1863-1893 | removing blank default runs from the end never changes the row as it is seen, and none is left |
| `RowRuns.WriteRow` | service/ShellInABox.js:1673-1895 | putString on a list of runs is array update: the row afterwards is the old one, padded with default blanks, with exactly cells [x, x + length) replaced; no two neighbouring runs look the same |
| `RowRuns.CollectSegments` | service/ShellInABox.js:2076-2110 | the runs collected for columns [sX, sX + w) show exactly these cells, blanks where the row has ended |
| `ScreenClass.Screen.constructor` | service/ShellInABox.js:141-197 | a new screen shows blank lines |
| `ScreenClass.Screen.PutString` | service/ShellInABox.js:1630-1895 | text at (x, y) replaces the cells it covers and nothing else on either screen; the cursor moves behind it, at most to the last column |
| `ScreenClass.Screen.ClearRegion` | service/ShellInABox.js:2030-2073 | exactly the cells of the clipped rectangle become spaces of the given colour and style; the cursor stays |
| `ScreenClass.Screen.CopyLineSegment` | service/ShellInABox.js:2075-2125 | w cells of one line are copied over w cells of another; nothing else changes |
| `ScreenClass.Screen.InsertBlankLines` | service/ShellInABox.js:2186-2193 | n blank rows are inserted at one place |
| `ScreenClass.Screen.TrimHistory` | service/ShellInABox.js:2195-2202 | the rows kept are the last height + 500, in order |
| `ScreenClass.Screen.ScrollIntoHistory` | service/ShellInABox.js:2181-2209 | the rows pushed off the top join the history, which keeps its newest 500 |
| `ScreenClass.Screen.ScrollRowsUp` | service/ShellInABox.js:2211-2231 | removing and inserting row elements is a move of whole lines up |
| `ScreenClass.Screen.ScrollRowsDown` | service/ShellInABox.js:2233-2243 | and down |
| `ScreenClass.Screen.CopyRegion` | service/ShellInABox.js:2245-2259 | copying line by line, ascending when moving up and descending when moving down, reads every line before it is overwritten |
| `ScreenClass.Screen.ScrollSegments` | service/ShellInABox.js:2245-2271 | copying and then clearing the strips left behind is one move of the rectangle |
| `ScreenClass.Screen.ScrollRegion` | service/ShellInABox.js:2127-2281 | whichever way it is done, scrolling is the move of the clipped rectangle that ScreenSpec.ScrollView defines; the cursor and the other screen are unchanged |
| `ScreenClass.Screen.SwitchScreens` | service/ShellInABox.js:1951-1984 | the other screen becomes the visible one |
| `ScreenSpec.CopyRowsStep` | service/ShellInABox.js:2246-2259 | why the order of copying is safe: the next line to be read has not been written |
| `ScreenSpec.CopyThenClear` | service/ShellInABox.js:2245-2271 | copied lines and two cleared strips are one move of the rectangle |
| `ScreenSpec.FillRegionStep` | service/ShellInABox.js:2063-2071 | clearing a rectangle line by line from the bottom up |
| `EditingTheorems.HistorySplits` | service/ShellInABox.js:2181-2202 | a whole-screen scroll: the visible lines move up, the lines that leave are appended to the scrollback, of which exactly the last 500 are kept |
| `EditingTheorems.HistoryComposes` | service/ShellInABox.js:2181-2202 | scrolling by j and then by k is scrolling by j + k, the limit of 500 included |
| `EditingTheorems.LineFeedsScroll` | service/ShellInABox.js:3214-3235 | n line feeds at the bottom of the main screen: the history holds all lines that left, in order, or at least the last 500 |
| `EditingTheorems.ScrollMovesCells` | service/ShellInABox.js:2127-2281 | for every visible cell: destination cells hold the old source cells, vacated strips are blank, all others and the cursor are unchanged |
| `EditingTheorems.InsertLines` | service/ShellInABox.js:3711-3726 | which visible lines are where after inserting lines; the history is unchanged |
| `EditingTheorems.DeleteLines` | service/ShellInABox.js:3728-3743 | which visible lines are where after deleting lines; they join the history exactly when they are the first of a main screen without margins |
| `EditingTheorems.DeleteUndoesInsert` | service/ShellInABox.js:3711-3743 | deleting the lines just inserted restores all but those pushed out |
| `EditingTheorems.LineFeedAtBottom` | service/ShellInABox.js:3214-3235 | a line feed at the bottom margin moves the lines inside the margins up |
| `EditingTheorems.ReverseFeedAtTop` | service/ShellInABox.js:3237-3258 | a reverse line feed at the top margin moves them down |
| `EditingTheorems.DeleteCharactersIff` | service/ShellInABox.js:3792-3804 | deleting characters does what it stands for if and only if the count does not reach the end of the line, or the rest of the line is blank |
| `EditingTheorems.InsertCharactersIff` | service/ShellInABox.js:3610-3622 | the same for inserting characters |
| `EditingTheorems.DeleteUndoesInsertCharacters` | service/ShellInABox.js:3610-3622 | deleting the characters just inserted restores the line but for what was pushed over its end |
| `EditingTheorems.InsertModePrints` | service/ShellInABox.js:4223-4227 | in insert mode a character pushes the rest of its line to the right, in the last column over the end |
| `EditingTheorems.EraseBelowIff` | service/ShellInABox.js:3659-3670 | erasing from the cursor to the end of the screen does so if and only if the cursor is not on the last line but one, or the last line is blank |
| `EditingTheorems.LetterNotErased` | service/ShellInABox.js:3661-3670 | a screen on which the last line is forgotten |
| `EditingTheorems.LetterNotDeleted` | service/ShellInABox.js:2143-2145 | a line on which deleting the last character does nothing |
| `EditingTheorems.EraseAbove` | service/ShellInABox.js:3671-3678 | erasing up to the cursor, cell by cell |
| `EditingTheorems.EraseAll` | service/ShellInABox.js:3679-3682 | erasing the display keeps the history |
| `EditingTheorems.TextInLine` | service/ShellInABox.js:4204-4233 | text that fits, one character after the other, replaces exactly the cells it covers; filling the last column leaves a wrap pending |
| `EditingTheorems.TextWraps` | service/ShellInABox.js:4219-4222 | the character behind a full line goes to the beginning of the next one, after a line feed at the bottom margin; in origin mode that line is counted from inside the margins |
| `EditingTheorems.GoesToNearest` | service/ShellInABox.js:1897-1920 | the cursor goes to the allowed position nearest to the one asked for, and nothing else changes |
| `EditingTheorems.ResetClears` | service/ShellInABox.js:201-270 | a reset leaves a blank main screen with the cursor at home and all modes, margins and tab stops as in the beginning |
| `EditingTheorems.ResetIsNewIff` | service/ShellInABox.js:1978-1983 | attributes and character sets are the initial ones if and only if the main screen was shown or nothing else was saved with it |
| `EditingTheorems.RestoreAfterSave` | service/ShellInABox.js:3313-3338 | restoring brings back column, attributes and character sets, and the line exactly when origin mode is off or the line is inside the margins |
| `TerminalSpec.Run` | service/ShellInABox.js:4153-4253 | every input string keeps the cursor on the screen, 0 <= top < bottom <= height, the decoder within its bounds and the parser in a legal state |
| `TerminalSpec.ShiftInOk` | service/ShellInABox.js:4162-4163 | the 32-bit shift of the decoder never overflows: fewer than 2^(31 - 6 * count) is kept |
| `TerminalSpec.DecodeOk` | service/ShellInABox.js:4158-4193 | every byte keeps the decoder within its bounds |
| `Batching.PutSnoc` | service/ShellInABox.js:4138-4150 | writing a cut text and one more character is writing the longer text, cut |
| `Batching.FlushSnoc` | service/ShellInABox.js:4138-4150 | collecting one more character and flushing is flushing and printing it, cursor and pending wrap included |
| `Batching.ExpansionIsCopies` | service/ShellInABox.js:4104-4118 | what a control sequence expands to is a run of one character, outside of any escape sequence and multi-byte character |
| `Batching.ExpansionsAreQuiet` | service/ShellInABox.js:4240-4244 | such a string never expands again, so the recursion of vt100 is one level deep |
| `Batching.ChunkIndependence` | service/ShellInABox.js:4153-4253 | feeding a string in two pieces is feeding it whole, wherever the cut is: same state, and the same answers one after the other |
| `TerminalClass.Terminal.constructor` | service/ShellInABox.js:141-270 | a new terminal |
| `TerminalClass.Terminal.GotoXY` | service/ShellInABox.js:1897-1920 | moves to the nearest position allowed, the margins in origin mode; no wrap is pending afterwards |
| `TerminalClass.Terminal.ScrollRegion` | service/ShellInABox.js:2127-2281 | scrolls with the current colour |
| `TerminalClass.Terminal.ClearRegion` | service/ShellInABox.js:2030-2073 | clears with the current colour and style |
| `TerminalClass.Terminal.Bs` | service/ShellInABox.js:3142-3147 | one column back |
| `TerminalClass.Terminal.Ht` | service/ShellInABox.js:3149-3177 | forward by tab stops |
| `TerminalClass.Terminal.Rt` | service/ShellInABox.js:3179-3207 | back by tab stops |
| `TerminalClass.Terminal.Lf` | service/ShellInABox.js:3214-3235 | count line feeds, no more than the height |
| `TerminalClass.Terminal.Ri` | service/ShellInABox.js:3237-3258 | count reverse line feeds |
| `TerminalClass.Terminal.RestoreCursor` | service/ShellInABox.js:3324-3338 | restores what was saved, if anything was |
| `TerminalClass.Terminal.EnableAlternateScreen` | service/ShellInABox.js:1935-1984 | changes to the other screen; the alternate one begins blank |
| `TerminalClass.Terminal.Reset` | service/ShellInABox.js:201-270 | back to the initial modes on a cleared main screen |
| `TerminalClass.Terminal.CsiAt` | service/ShellInABox.js:3610-3622 | inserts characters |
| `TerminalClass.Terminal.CsiP` | service/ShellInABox.js:3792-3804 | deletes characters |
| `TerminalClass.Terminal.CsiL` | service/ShellInABox.js:3711-3726 | inserts lines |
| `TerminalClass.Terminal.CsiM` | service/ShellInABox.js:3728-3743 | deletes lines |
| `TerminalClass.Terminal.CsiJ` | service/ShellInABox.js:3659-3688 | erases in the display |
| `TerminalClass.Terminal.EscSquare` | service/ShellInABox.js:3916-3930 | the first character behind the control sequence introducer |
| `TerminalClass.Terminal.EscGetPars` | service/ShellInABox.js:3931-3956 | collects parameters |
| `TerminalClass.Terminal.EscGotPars` | service/ShellInABox.js:3957-4048 | acts on the final character, and says what it expands to and answers |
| `TerminalClass.Terminal.DoControl` | service/ShellInABox.js:3823-4124 | one control character or one character of an escape sequence: new state, expansion and answer |
| `TerminalClass.Terminal.DecodeUnit` | service/ShellInABox.js:4157-4197 | one byte of the UTF-8 decoder |
| `TerminalClass.Terminal.RenderString` | service/ShellInABox.js:4126-4151 | writes the collected characters, cut at the last column |
| `TerminalClass.Terminal.Collect` | service/ShellInABox.js:4214-4234 | collecting a character leaves the same terminal as printing it, once the collected characters are written |
| `TerminalClass.Terminal.FeedUnit` | service/ShellInABox.js:4155-4246 | one code unit: with the collected characters written, the state of the naive terminal |
| `TerminalClass.Terminal.Vt100` | service/ShellInABox.js:4153-4253 | batched rendering refines the naive terminal: after any string the cells of both screens, the history, cursor, modes, parser, decoder and answers are those of feeding and showing one character at a time; it terminates |
| `TerminalRuns.ColorsDiffer` | service/ShellInABox.js:3269-3304 | the colours chosen for any attributes differ, so text is never painted in its background colour |
| `TerminalRuns.AlwaysLegible` | service/ShellInABox.js:3269-3304 | over every run the pen, both screens and the whole history stay legible |
| `TerminalRuns.LegibleFromTheStart` | service/ShellInABox.js:201-270 | and so it is from the beginning |
| `TerminalRuns.HistoryIsALog` | service/ShellInABox.js:2181-2202 | over every run the history is a log: lines are only appended, and only the oldest are dropped, when there are more than 500 |
| `TerminalRuns.MainScreenUntouched` | service/ShellInABox.js:1935-1984 | while the alternate screen is shown, no input changes the main one, its history, or what was saved with it |
| `TerminalRuns.FullScreenProgram` | service/ShellInABox.js:1935-1984 | leaving the alternate screen after any input shows the lines, history, attributes and column from before, and the line if and only if the program left origin mode off or margins that hold it; the character sets are those saved last, in use at some time since, and the ones from before if and only if these are still saved |
| `TerminalRuns.SavedSetsWereUsed` | service/ShellInABox.js:3313-3322 | the saved character sets are the ones from before or some that were in use meanwhile |
| `TerminalRuns.SetsOverwritten` | service/ShellInABox.js:3313-3338 | a program that loses the character sets of the main screen |
| `TerminalRuns.AlternateBeginsBlank` | service/ShellInABox.js:1935-1984 | the alternate screen begins blank with the cursor at home |
| `TerminalInput.PartialDecode` | service/ShellInABox.js:4158-4193 | from any decoder state, after the leading byte and j continuation bytes the decoder holds exactly the bits they carry |
| `TerminalInput.Utf8Decodes` | service/ShellInABox.js:4157-4197 | the UTF-8 bytes of a code point give that character, or the replacement character beyond 16 bits, and nothing before the last byte |
| `TerminalInput.Utf8Draws` | service/ShellInABox.js:4204-4234 | so a printable character is drawn |
| `TerminalInput.ParametersRead` | service/ShellInABox.js:3916-3956 | decimal parameters of any number and size are read as the numbers written, from any parser state |
| `CursorMoves.CursorUp` | service/ShellInABox.js:3974-3976 | "ESC [ n A": n lines up, no further than the first one, or in origin mode than the top margin; no number or 0 is 1; nothing else changes |
| `CursorMoves.CursorDown` | service/ShellInABox.js:3977-3980 | "ESC [ n B" and "ESC [ n e": n lines down |
| `CursorMoves.CursorRight` | service/ShellInABox.js:3981-3984 | "ESC [ n C" and "ESC [ n a": n columns right |
| `CursorMoves.CursorLeft` | service/ShellInABox.js:3984-3985 | "ESC [ n D": n columns left |
| `CursorMoves.NextLine` | service/ShellInABox.js:3986-3987 | "ESC [ n E": to the beginning of the line n further down |
| `CursorMoves.PreviousLine` | service/ShellInABox.js:3988-3989 | "ESC [ n F": and further up |
| `CursorMoves.ToColumn` | service/ShellInABox.js:3972-3973 | "ESC [ n G" and "ESC [ n `": to column n |
| `CursorMoves.ToLine` | service/ShellInABox.js:3990-3990 | "ESC [ n d": to line n, from the top margin on in origin mode |
| `CursorMoves.ToPosition` | service/ShellInABox.js:3991-3992 | "ESC [ row ; column H" and f |
| `CursorMoves.TabsForward` | service/ShellInABox.js:3149-3177 | "ESC [ n I": to the first column with n tab stops up to it, or the last column |
| `CursorMoves.TabsBackward` | service/ShellInABox.js:3179-3207 | "ESC [ n Z": to the last column with n tab stops from it on, or the first one |
| `CursorMoves.TabCharacter` | service/ShellInABox.js:3149-3177 | the tabulator character: one stop |
| `CursorMoves.EveryEighth` | service/ShellInABox.js:3165-3168 | as long as no stop was set or cleared, to the next multiple of 8 |
| `TerminalInput.NoNumberIsZero` | service/ShellInABox.js:3916-3930 | a sequence without a number is the one with the number 0 |
| `PlainText.CharacterDrawn` | service/ShellInABox.js:4199-4234 | printable ASCII, and without UTF-8 the characters from A0 on, are drawn as the entry of their table |
| `PlainText.GlyphDrawn` | service/ShellInABox.js:4208-4209 | an entry from F000 on is a glyph of the font |
| `PlainText.ControlDrawn` | service/ShellInABox.js:4198-4203 | which control characters are drawn, and when |
| `PlainText.Utf8Shown` | service/ShellInABox.js:4204-4212 | which decoded characters are drawn as themselves, as glyphs, or not at all |
| `PlainText.Utf8LookedUp` | service/ShellInABox.js:4204-4207 | decoded characters below 100 are looked up in the table |
| `PlainText.StrayByteIgnored` | service/ShellInABox.js:4174-4195 | a byte that is not part of a character shows nothing |
| `PlainText.TextDrawn` | service/ShellInABox.js:4199-4234 | any printable ASCII text is drawn character by character |
| `PlainText.TextCells` | service/ShellInABox.js:4199-4234 | text that fits: the cells it covers, all other cells, the cursor and the pending wrap |
| `PlainText.NewTerminalShows` | service/ShellInABox.js:4199-4234 | on a new terminal what is typed is what is seen |
| `HostCommands.Backspace` | service/ShellInABox.js:3142-3147 | backspace goes one column back, but not before the first |
| `HostCommands.CarriageReturn` | service/ShellInABox.js:3209-3212 | carriage return goes to the first column |
| `HostCommands.LineFeeding` | service/ShellInABox.js:3833-3836 | LF, VT and FF feed a line, in newline mode with a carriage return |
| `HostCommands.LineFeedGoesDown` | service/ShellInABox.js:3214-3235 | a line feed away from the bottom margin goes down one line, if there is one |
| `HostCommands.ReverseFeedGoesUp` | service/ShellInABox.js:3237-3258 | a reverse line feed away from the top margin goes up one line |
| `HostCommands.ShiftingOut` | service/ShellInABox.js:3839-3841 | SO selects G1 and displays control characters |
| `HostCommands.ShiftingIn` | service/ShellInABox.js:3842-3844 | SI selects G0 and does not |
| `HostCommands.CancelAndNothing` | service/ShellInABox.js:3830-3860 | CAN and SUB end a sequence; NUL, DEL and BEL do nothing |
| `HostCommands.UpperTabStop` | service/ShellInABox.js:3849-3849 | the 8-bit control character for ESC H |
| `HostCommands.UpperReverseFeed` | service/ShellInABox.js:3850-3850 | for ESC M |
| `HostCommands.UpperIdentity` | service/ShellInABox.js:3853-3853 | for ESC Z |
| `HostCommands.SavingAndRestoring` | service/ShellInABox.js:3872-3873 | ESC 7 and ESC 8 |
| `HostCommands.FeedingForward` | service/ShellInABox.js:3876-3877 | ESC D and ESC E |
| `HostCommands.FeedingBack` | service/ShellInABox.js:3878-3878 | ESC M |
| `HostCommands.Resetting` | service/ShellInABox.js:3885-3885 | ESC c |
| `HostCommands.StopKeypadAndIdentity` | service/ShellInABox.js:3874-3882 | ESC H, ESC =, ESC > and ESC Z |
| `HostCommands.HashIgnored` | service/ShellInABox.js:4066-4070 | ESC # and any character are ignored |
| `HostCommands.CharacterSet` | service/ShellInABox.js:4072-4089 | which table each of the sets G0 to G3 becomes by ESC ( and its relatives with each letter, and when at once |
| `HostCommands.Utf8Switched` | service/ShellInABox.js:4055-4063 | ESC % turns UTF-8 off and on |
| `HostCommands.SingleShift` | service/ShellInABox.js:4104-4118 | ESC N and ESC O look one character up in G2 or G3 |
| `HostCommands.InsertsCharacters` | service/ShellInABox.js:3994-3994 | "ESC [ n @" |
| `HostCommands.ErasesDisplay` | service/ShellInABox.js:3996-3996 | "ESC [ n J" |
| `HostCommands.InsertsLines` | service/ShellInABox.js:3998-3998 | "ESC [ n L" |
| `HostCommands.DeletesLines` | service/ShellInABox.js:3999-3999 | "ESC [ n M" |
| `HostCommands.DeletesCharacters` | service/ShellInABox.js:4001-4001 | "ESC [ n P" |
| `HostCommands.FeedsLines` | service/ShellInABox.js:4003-4003 | "ESC [ n S" feeds n lines, at most the height |
| `HostCommands.FeedsLinesBack` | service/ShellInABox.js:4004-4004 | "ESC [ n T" feeds them back |
| `HostCommands.OtherErasesNothing` | service/ShellInABox.js:3659-3709 | other numbers than 0, 1 and 2 erase nothing |
| `HostCommands.CountedFromOne` | service/ShellInABox.js:3610-3615 | 0 counts as 1, and no count goes beyond the room |
| `HostCommands.SetsMargins` | service/ShellInABox.js:4025-4033 | "ESC [ first ; last r" sets the margins and goes home, when there are such lines |
| `HostCommands.ClearsTabs` | service/ShellInABox.js:4006-4014 | "ESC [ n g" clears the tab stop at the cursor, or all |
| `HostCommands.SavesAndRestores` | service/ShellInABox.js:4042-4043 | "ESC [ s" and "ESC [ u" |
| `HostCommands.SequenceIgnored` | service/ShellInABox.js:3970-4048 | the letters that do nothing |
| `HostCommands.Answers` | service/ShellInABox.js:4005-4022 | every answer to a sequence with one number, and that there are no others |
| `HostCommands.SecondaryIdentity` | service/ShellInABox.js:3938-3941 | "ESC [ > c" is answered |
| `HostCommands.FunctionKeySkipped` | service/ShellInABox.js:3921-3924 | a function key is skipped |
| `HostCommands.TitleSkipped` | service/ShellInABox.js:4090-4103 | a title is skipped up to the bell |
| `TerminalInput.CursorPosition` | service/ShellInABox.js:3991-3992 | the cursor position sequence moves there |
| `TerminalInput.CursorReportIff` | service/ShellInABox.js:3416-3422 | sending a cursor report back restores the position if and only if origin mode is off, the cursor is on the last line of the margins, or the margins begin at the top and hold it |
| `Repeated.RepeatIsInput` | service/ShellInABox.js:4034-4041 | "repeat" n, whatever the parser was doing, feeds the last character n times (0 counts as 1, the size of the screen is the most), from outside of any sequence |
| `Repeated.RepeatIff` | service/ShellInABox.js:4034-4041 | it draws that character each time, on every screen and for every n, if and only if the character, taken as input, draws itself: it does not go through the decoder, is no control character, and its table leads it to itself |
| `Repeated.RepeatDraws` | service/ShellInABox.js:4204-4234 | a character that its table leads to another one is drawn as that one, as often as asked |
| `Repeated.RepeatDecoded` | service/ShellInABox.js:4157-4197 | in UTF-8 mode a character that is not ASCII changes nothing on the screen |
| `Repeated.RepeatControls` | service/ShellInABox.js:4235-4245 | a character that is a control character when it comes as input acts as one |
| `Repeated.AccentNotRepeated` | service/ShellInABox.js:4157-4197 | an accented letter sent as UTF-8 is drawn once, however often it is to be repeated |
| `Repeated.GlyphRepeatedAsLineFeed` | service/ShellInABox.js:4207-4208 | the private character F00A is drawn once and repeated as line feeds |
| `Repeated.LookedUpTwice` | service/ShellInABox.js:4325-4358 | in code page 437 the byte AE is drawn as AB and repeated as BD |
| `Sequences.EraseInLine` | service/ShellInABox.js:3690-3709 | "erase in line" written by the host, cell by cell, for every cell of screen and history; nothing else changes |
| `Sequences.EraseCharacters` | service/ShellInABox.js:3806-3817 | "erase characters" written by the host, cell by cell, also when the count reaches the end of the line |
| `Sequences.GraphicRendition` | service/ShellInABox.js:3745-3790 | any list of renditions: each attribute is decided by the last parameter that speaks of it, the table by the last of 10, 11 and 12, colour and style follow; nothing else changes |
| `Sequences.LastOfIs` | service/ShellInABox.js:3746-3789 | which parameter that is |
| `Sequences.ColoursShown` | service/ShellInABox.js:3269-3304 | plain attributes show the colours they name, reverse video exchanges them, underline underlines |
| `Sequences.ShadesShown` | service/ShellInABox.js:3269-3304 | bright, dim and blink |
| `Sequences.ClashAvoided` | service/ShellInABox.js:3288-3301 | text in the colour of its background gets another shade |
| `Sequences.ReverseVideo` | service/ShellInABox.js:3276-3280 | reverse video on a new terminal |
| `Sequences.ModesAre` | service/ShellInABox.js:3381-3409 | any list of modes, with or without the question mark: a mode has the new state if and only if its number is in the list, in whatever order, even when the list switches screens |
| `Sequences.SwitchingModes` | service/ShellInABox.js:3381-3409 | so it is for the sequence as the host writes it |
| `Sequences.SwitchingPrivateModes` | service/ShellInABox.js:3381-3409 | and for the private one, with its question mark, from any parser state |
| `TerminalInput.SequenceActs` | service/ShellInABox.js:3916-3957 | a control sequence with any parameters, from any parser state, does what its final character does with these parameters |
| `TerminalInput.TabStopRight` | service/ShellInABox.js:3149-3177 | a tabulator goes to the next stop, or the last column when there is none |
| `TerminalInput.TabStopLeft` | service/ShellInABox.js:3179-3207 | a back tabulator goes to the previous one, or the first column |
| `KeySenderSpec.KeysConserved` | service/ShellInABox.js:4622-4661 | for every interleaving, the payloads sent and the pending keys are together the keys offered while connected, in order |
| `KeySenderSpec.RequestsInFlight` | service/ShellInABox.js:4622-4661 | at most one key request is open, plus one for each request from before the last reconnect that completed after it |
| `KeySenderSpec.AtMostOneInFlight` | service/ShellInABox.js:4654-4661 | so at most one, when none from before is still on its way |
| `KeySenderSpec.AtMostOneIff` | service/ShellInABox.js:4654-4661 | in every continuation until the next reconnect at most one is open, if and only if no request from before the last reconnect is still on its way and the flag tells of every open one |
| `KeySenderSpec.OpenBoundReached` | service/ShellInABox.js:4654-4661 | the bound is reached for every number of such completions |
| `KeySenderSpec.CompletionSendsAll` | service/ShellInABox.js:4654-4661 | a completion sends everything that waits: all keys offered have then been sent |
| `KeySenderSpec.PressSendsAll` | service/ShellInABox.js:4622-4652 | a key is sent with everything that waits if and only if no request is open; otherwise nothing is sent |
| `KeySenderSpec.NothingSentWhileClosed` | service/ShellInABox.js:4532-4545 | once the session is closed nothing is sent or kept until output comes or the user connects again |
| `KeySenderSpec.ResizeSends` | service/ShellInABox.js:4696-4703 | a resize sends what is waiting when there is a session and the line is free, else nothing |
| `KeySenderSpec.TwoRequests` | service/ShellInABox.js:4654-4661 | a run in which two are open |
| `KeySenderSpec.KeysAreUtf8Iff` | service/ShellInABox.js:4663-4694 | a code unit is sent as its UTF-8 bytes if and only if it is below 0x800 |
| `KeySenderSpec.ThirdDigitLacksEight` | service/ShellInABox.js:4675-4681 | from 0x800 on exactly one digit differs from the UTF-8 form: the third, which lacks 8 |
| `KeySenderClass.ShellInABox.SendKeys` | service/ShellInABox.js:4622-4652 | keys are taken exactly when there is a connection; with a session and the line free everything taken so far has then been sent, otherwise nothing is; order and the in-flight flag stay right |
| `KeySenderClass.ShellInABox.KeyPressReadyStateChange` | service/ShellInABox.js:4654-4661 | a completion frees the line and sends what is pending |
| `KeySenderClass.ShellInABox.KeysPressed` | service/ShellInABox.js:4663-4694 | encodes and sends |
| `KeySenderClass.KeysAreText` | service/ShellInABox.js:4663-4694 | what is sent for text below 0x800 are the digits of its UTF-8 form, in order |
| `KeySenderClass.ShellInABox.Resized` | service/ShellInABox.js:4696-4703 | a resize flushes the pending keys |
| `SocketRing.PutIsLast` | service/mongoose.cpp:4331-4333 | a socket put into the ring comes last and overwrites none |
| `SocketRing.TakeIsFirst` | service/mongoose.cpp:4263-4272 | taking removes the oldest, although indices are wrapped only above 20 |
| `SocketQueueClass.SocketQueue.Produce` | service/mongoose.cpp:4328-4333 | the critical section of the producer |
| `SocketQueueClass.SocketQueue.Consume` | service/mongoose.cpp:4262-4272 | the critical section of a consumer |
| `WorkerPool.StepKeepsInv` | service/mongoose.cpp:4247-4419 | every step of every thread keeps the invariant: mutual exclusion, the queue, no lost wakeup, the stop handshake |
| `WorkerPool.InvHolds` | service/mongoose.cpp:4247-4419 | it holds in every reachable state, with spurious wakeups, signals that wake several threads and queue stealing |
| `WorkerPool.QueueIsFifo` | service/mongoose.cpp:4247-4338 | accepted sockets are the consumed ones, in order, followed by the ring; 0 <= tail <= 20 and tail <= head <= 40 |
| `WorkerPool.NoDeadlock` | service/mongoose.cpp:4252-4337 | before the stop some thread can always move |
| `WorkerPool.WorkMoves` | service/mongoose.cpp:4252-4275 | before the stop, with a socket in the ring, a worker can move, or the master holds the mutex and can |
| `WorkerPool.StoppedMeansGone` | service/mongoose.cpp:4311-4419 | num_threads is the number of workers that have not signed off; stop_flag is 2, or the mutex destroyed, only when all workers are gone and nobody holds the mutex |
| `WorkerPool.BroadcastMisses` | service/mongoose.cpp:4402-4403 | the broadcast misses exactly the workers between their test and their sleep |
| `WorkerPool.ShutdownHangs` | service/mongoose.cpp:4405-4409 | if there is one, the shutdown never ends (unless it wakes spuriously) |
| `WorkerPool.ShutdownEnds` | service/mongoose.cpp:4405-4419 | if there is none, it ends in a bounded number of steps, whatever the scheduling |
| `WorkerPool.MasterIsWoken` | service/mongoose.cpp:4326-4337 | after the stop, a master that waits for room is woken, in every run of the threads, when some worker is about to take a socket or to signal |
| `WorkerPool.MasterHangs` | service/mongoose.cpp:4326-4337 | when none is, it waits for ever in every such run, and the shutdown never ends |
| `WorkerPool.FullRun` | service/mongoose.cpp:4326-4337 | a run from the initial state that ends so: the ring is full, the only worker has left, no thread can ever move again |
| `WorkerPool.HangingRun` | service/mongoose.cpp:4251-4254 | a run from the initial state that hangs |
| `Throttle.StepKeepsInv` | service/mongoose.cpp:4868-4985 | every step of every thread keeps the invariant |
| `Throttle.InvHolds` | service/mongoose.cpp:4868-4985 | it holds in every reachable state |
| `Throttle.ConnectionsCounted` | service/mongoose.cpp:5235-5245 | backnumconn is the number of connections that have not reported, at most 3 plus the number of waits that ended without a signal; a waiting producer has one to wait for; -1 <= backactmaxconn <= 3 |
| `Throttle.DoneHasReported` | service/mongoose.cpp:4900-4933 | when all connections are done the count is 0 |
| `Throttle.EachReportsOnce` | service/mongoose.cpp:4900-4933 | a connection decrements exactly in the step in which it reports, and no step takes the report back: once on every path |
| `Throttle.DataRaisesIff` | service/mongoose.cpp:4909-4923 | a report, undisturbed, raises the limit by one if and only if data came and the limit was below 3 |
| `Throttle.ReportWakes` | service/mongoose.cpp:4900-4933 | each report wakes a waiting producer |
| `Throttle.SpuriousWakeupsAdd` | service/mongoose.cpp:5239-5243 | for every k a run with k wakeups without a signal that ends with 3 + k connections open |
| `Throttle.MostConnections` | service/mongoose.cpp:5235-5245 | so 3 + k is exactly the most that k such wakeups can lead to, and the limit of 3 holds exactly without one |
| `Throttle.LockedLimit` | service/mongoose.cpp:4467-4471 | 1 <= backactmaxconn <= 3 in every run in which the service thread and a connection are never in the middle of changing it at the same time |
| `Throttle.MutexFreeIsApart` | service/webkey.cpp:10601 | in particular when nobody holds the mutex while the service thread is at it |
| `Throttle.OutdatedFirst` | service/mongoose.cpp:4467-4471 | in every run, before the limit falls below 1 there is a moment at which it is 1 and a thread that has seen more has not yet loaded it |
| `Throttle.LimitKeptIff` | service/mongoose.cpp:4467-4471 | exactly such a moment is the danger: in a run without one so far, whatever two steps follow keep the limit at 1 or more if and only if this is not one |
| `Throttle.LimitReachesZero` | service/webkey.cpp:10601 | the call without the mutex can take it to 0 |
| `Throttle.LimitReachesMinusOne` | service/webkey.cpp:10601 | and to -1, so that bound is exact too |
| `Md5Transform.SameFunctions` | service/mongoose.cpp:1982-1985 | the reduced forms of the auxiliary functions are those of RFC 1321 section 3.4 |
| `Md5Transform.AllRounds` | service/mongoose.cpp:2002-2076 | the sixty-four written-out steps are the indexed steps of RFC 1321 section 3.4 |
| `Md5Spec.ConstantsAreSines` | service/mongoose.cpp:2010-2076 | the 64 constants are sines |
| `Md5Spec.FirstAndLast` | service/mongoose.cpp:2010-2076 | the first and the last constant as published, where the sine table begins and ends |
| `Md5Spec.PublishedOrder` | service/mongoose.cpp:2010-2076 | words and shifts in the order of RFC 1321 section 3.4 |
| `Md5Spec.PublishedBytes` | service/mongoose.cpp:1993-1996 | the registers begin as the bytes 01, 23, 45 and so on |
| `Md5Spec.RotatedByte` | service/mongoose.cpp:1987-1988 | a rotation by 8 bits moves the top byte to the bottom |
| `Md5Spec.PublishedBits` | service/mongoose.cpp:1982-1985 | the auxiliary functions bit by bit: choice, choice, sum, and the fourth table |
| `Md5Spec.PaddedShape` | service/mongoose.cpp:2120-2142 | the shape of a padded message |
| `Md5Stream.Carry` | service/mongoose.cpp:2087-2090 | the two words of the bit count are 8 * length modulo 2^64, with the carry between them |
| `Md5Stream.Md5Context.Transform` | service/mongoose.cpp:2002-2082 | one block goes into the chaining value |
| `Md5Stream.Md5Context.CountBits` | service/mongoose.cpp:2087-2090 | the bit count of the longer message |
| `Md5Stream.Md5Context.Update` | service/mongoose.cpp:2084-2118 | the context always holds the chaining value of all full blocks, the bytes left over and the bit count of everything given so far |
| `Md5Stream.Md5Context.Final` | service/mongoose.cpp:2120-2146 | the digest of everything given, with the padding of RFC 1321 sections 3.1 and 3.2 in both branches |
| `Md5Stream.ShortPad` | service/mongoose.cpp:2134-2142 | padding that fits the last block |
| `Md5Stream.LongPad` | service/mongoose.cpp:2129-2133 | padding that needs another one |
| `Md5Stream.MgMd5` | service/mongoose.cpp:2162-2178 | the hash of a list of strings is that of their concatenation, however it is cut |
| `Md5Stream.HexInjective` | service/mongoose.cpp:2151-2160 | different digests are written differently |
| `RequestHead.GetRequestLen` | service/mongoose.cpp:1780-1798 | the loop computes RequestLen |
| `RequestHead.EarliestBlankLine` | service/mongoose.cpp:1780-1798 | a positive answer is the end of the earliest empty line, and there is one exactly when there is such a line |
| `RequestHead.StableLength` | service/mongoose.cpp:1785-1795 | a positive answer never changes as the buffer grows |
| `RequestHead.BadByteSeen` | service/mongoose.cpp:1785-1789 | without an empty line the answer is -1 exactly when a control character was seen that is no line end |
| `RequestHead.BareLineFeeds` | service/mongoose.cpp:1790-1795 | lines may end with bare line feeds |
| `RequestHead.ReadRequest` | service/mongoose.cpp:2854-2872 | the buffer holds what the socket sent, the answer is the first one other than 0 among the prefixes that came, and reading gives up only on a full buffer or when a pull gives nothing |
| `RequestHead.AnyChunking` | service/mongoose.cpp:2854-2872 | with no illegal byte in the head every chunking gives its length |
| `RequestHead.ChunkingMatters` | service/mongoose.cpp:1785-1789 | with one, some chunking gives -1 and another the length |
| `RequestParser.Skip` | service/mongoose.cpp:824-838 | the word up to a delimiter, ended by NULs in place; the rest of the string begins at the returned position |
| `RequestParser.ParseHttpHeaders` | service/mongoose.cpp:2810-2820 | up to 64 headers, each a string inside the buffer |
| `RequestParser.ParseHttpRequest` | service/mongoose.cpp:2828-2849 | in-place tokenising is parsing: each pointer leads to the word that the reference parser finds, for malformed requests too, and later writes do not disturb earlier words |
| `RequestParser.KnownMethods` | service/mongoose.cpp:2822-2826 | the six methods |
| `RequestParser.LeadingSpace` | service/mongoose.cpp:2834-2836 | white space in front of a request does not matter |
| `RequestParser.NothingElseSkipped` | service/mongoose.cpp:2834-2836 | anything else in front is part of the method |
| `RequestRoundTrip.ParsePrinted` | service/mongoose.cpp:4162-4172 | the form printed by the proxy is parsed back to the same method, URI and version, and to its first 64 headers without the colons and spaces in front of their values |
| `RequestRoundTrip.ValueSurvivesIff` | service/mongoose.cpp:2810-2820 | a header value is read as printed if and only if it is empty or begins with neither a colon nor a space |
| `RequestRoundTrip.ParsedIsSeparable` | service/mongoose.cpp:2828-2849 | whatever is parsed successfully has words that the tokenizer can tell from its separators, and at most 64 headers |
| `RequestRoundTrip.RoundTripIff` | service/mongoose.cpp:4162-4172 | for every request: printed, it is parsed back to itself if and only if its words can be told from the separators, it has no more than 64 headers, and every value is empty or begins with neither a colon nor a space |
| `RequestRoundTrip.PrintedIsFramed` | service/mongoose.cpp:4162-4172 | its only empty line is its end |
| `RequestRoundTrip.ForwardedRequest` | service/mongoose.cpp:2854-2872 | so a forwarded request, followed by anything and cut in any way, is found whole in the buffer and read as that request |
| `BodyReader.Connection.Read` | service/mongoose.cpp:1503-1555 | what is delivered continues the body; exactly as much as asked for and announced, first from the buffer and then from the socket until a pull gives nothing; consumed_content counts it |
| `BodyReader.ReadAll` | service/mongoose.cpp:1503-1555 | any sequence of reads returns a prefix of the body within the announced length, and all of it that was asked for as long as pulls give something |
| `BodyReader.StopsShort` | service/mongoose.cpp:1543-1551 | the socket is given up only when a pull gives nothing |
| `UrlCodec.UrlDecode` | service/mongoose.h:257-283 | decoding in place equals decoding into another buffer, also when the room is short or an escape goes on behind the source |
| `UrlCodec.DecodesAloneIff` | service/mongoose.h:257-283 | for all strings and lengths: what is decoded is the source by itself, without what lies behind it, if and only if the source does not cut off an escape (or cuts off one for a percent sign before its digits) |
| `UrlCodec.EscapeReadsOn` | service/mongoose.h:264-272 | a witness: the escape cut off in %4 takes in the 1 behind it |
| `UrlCodec.UrlEncode` | service/mongoose.cpp:2517-2535 | what is written for any room, gaps for escapes that do not fit included; the encoded string if and only if it fits |
| `UrlCodec.EncodedWhole` | service/mongoose.cpp:2517-2535 | it fits if and only if its length does; 3n + 1 bytes always suffice |
| `UrlCodec.DecodeEncode` | service/mongoose.cpp:2517-2535 | decoding undoes encoding, in form mode and otherwise |
| `UrlCodec.KeptCharacters` | service/mongoose.cpp:2517-2524 | which bytes are not escaped |
| `UrlCodec.HexDigits` | service/mongoose.h:262-271 | both cases of the digits count |
| `UrlCodec.PlusIsSpace` | service/mongoose.h:272-273 | a plus sign is a space in forms only |
| `UrlCodec.RemoveDoubleDots` | service/mongoose.h:288-306 | the in-place cleaning computes Cleaned and leaves what comes before the string alone |
| `UrlCodec.CleanedPathIsSafe` | service/mongoose.h:288-306 | a cleaned path never holds a separator with two dots behind it |
| `UrlCodec.NoClimbing` | service/mongoose.h:288-306 | neither a slash nor a backslash is followed by two dots |
| `UrlCodec.CleanStaysClean` | service/mongoose.h:288-306 | cleaning a clean path changes nothing |
| `UrlCodec.DoubleSeparatorIff` | service/mongoose.h:288-306 | two separators are left together if and only if the path held two with pairs of dots between them |
| `ZipFormat.RecordDescribesEntry` | service/minizip/mztools.c:137-201 | each record points at a local header with the same name, extra field, CRC and sizes |
| `ZipFormat.EndRecordDelimits` | service/minizip/mztools.c:211-242 | the end record delimits the directory exactly and counts its entries |
| `ZipFormat.CentralFields` | service/minizip/mztools.c:142-158 | the fields of a central directory record (APPNOTE.TXT section 4.3.12) |
| `ZipFormat.ScanIsVerbatim` | service/minizip/mztools.c:49-135 | the recovered entries are the beginning of the file, byte for byte, up to something that is no local header |
| `ZipFormat.RecoveredAreLaidOut` | service/minizip/mztools.c:52-125 | every recovered entry has the lengths its header gives: the compressed size, or where that is 0 the other one |
| `ZipFormat.AllRecovered` | service/minizip/mztools.c:49-209 | of a file of entries so laid out, with something else behind them, all are recovered |
| `ZipFormat.BrokenEntry` | service/minizip/mztools.c:80-125 | an entry without a name or cut off is an error |
| `ZipFormat.RecordBytes` | service/minizip/mztools.c:139-158 | the bytes of a central directory record: which bytes of the local header it repeats (APPNOTE.TXT section 4.3.12) |
| `ZipFormat.EndBytes` | service/minizip/mztools.c:212-227 | the bytes of the end record |
| `ZipFormat.RepairIsIdempotent` | service/minizip/mztools.c:49-209 | repairing a repaired archive gives the same archive |
| `ZipRepair.WriteCentralHeader` | service/minizip/mztools.c:139-158 | the header written field by field |
| `ZipRepair.WriteEndRecord` | service/minizip/mztools.c:212-227 | the end record |
| `ZipRepair.ReadEntry` | service/minizip/mztools.c:52-135 | one entry, or the error of the first check that fails |
| `ZipRepair.UnzRepair` | service/minizip/mztools.c:30-281 | when it succeeds: the local entries verbatim, one record for each in order, the end record, and the right totals; otherwise the error; of a well-formed file all entries |
| `ZipCipher.DecryptEncrypted` | service/minizip/crypt.h:76-80 | decrypting with the same keys gives the message back, with the same keys at the end |
| `ZipCipher.KeysInStep` | service/minizip/crypt.h:76-80 | the keys of both sides agree after every byte |
| `ZipCipher.KeysAfter` | service/minizip/crypt.h:48-58 | the three keys after a string: its CRC, the generator driven by it, and the CRC of the generator |
| `ZipCipher.DifferentKeys` | service/minizip/crypt.h:48-58 | different bytes leave different keys |
| `ZipCipher.EmptyPassword` | service/minizip/crypt.h:65-74 | the first keystream byte of the empty password |
| `ZipCipher.OnlyLowHalf` | service/minizip/crypt.h:35-43 | the keystream byte depends on the low half of the third key only |
| `ZipCipher.KnownKeystream` | service/minizip/crypt.h:35-43 | the keystream byte for each kind of low bits |
| `ZipCipher.TableIsPoly` | service/minizip/crypt.h:30-30 | with the table of the polynomial, the macro is eight steps of the CRC |
| `ZipCipher.ReaderGetsHeaderAndBody` | service/minizip/crypt.h:90-129 | a reader who knows the password gets the header with its CRC bytes and then the data |
| `Bits.XorTwice` | service/minizip/crypt.h:76-80 | exclusive or undoes itself |
| `ZipCrypt.InitKeys` | service/minizip/crypt.h:65-74 | the keys of a password |
| `ZipCrypt.DecryptBuffer` | service/minizip/unzip.c:1743-1752 | decrypting a buffer in place: whatever was encrypted with the same keys comes back, and the keys are the same again |
| `ZipCrypt.ReadHead` | service/minizip/unzip.c:1619-1630 | reading the twelve bytes in front leaves the keys that the data behind them was encrypted with |
| `ZipCrypt.CryptHead` | service/minizip/crypt.h:90-129 | twelve bytes that decrypt to ten header bytes and CRC bits 16 to 31, leaving the keys ready for the data |
| `Base64.Base64Encode` | service/base64.cpp:42-83 | the loops compute the encoding of RFC 4648 section 4 |
| `Base64.Base64Decode` | service/base64.cpp:85-124 | the loops decode the letters up to the first other character |
| `Base64.DecodeEncode` | service/base64.cpp:85-124 | decoding undoes encoding for every byte string, whatever the unused slots of the last group hold |
| `Base64.EncodeDecode` | service/base64.cpp:42-83 | encoding undoes decoding of letters in groups of four |
| `Base64.EncodedLength` | service/base64.cpp:42-83 | the encoded length is 4 * ceil(n / 3) |
| `Base64.LettersOfAlphabet` | service/base64.cpp:30-33 | the alphabet |
| `Base64.PublishedValues` | service/base64.cpp:42-83 | values of RFC 4648 section 10 |

## Left out

Of the terminal:

- Pixel positions, menus, soft keyboard, key events, beeps, the visual bell, URL links, cookies, the inverted screen and the cursor element: none of them changes cells.
- Printing (`csii`, `sendToPrinter`): the printer window takes all output; the model is the terminal without it.
- Resizing, 132-column mode and `repairElements`: all terminal results are for a fixed size, at which `resizer` changes nothing.
- The tables of the character sets are arbitrary: everything holds for all tables of 256 entries.
- `csiM` clamps with two undeclared names; it is modelled with the fields they stand for.
- `csiP`, `csiL`, `csiM` and others assign `needWrap` without `this`, which does not touch the field: the model leaves the field as it is.
- The fields of VT100 are grouped into records (modes, character sets, pen, parameters); JavaScript's rounding of parameters beyond 2^53 is not modelled.
- `numScrollbackLines` is taken as the number of rows beyond the height; row elements are values in a sequence, so aliasing between elements is not captured.
- The window title, the palette and the status string are parsed but have no effect.

Of the key sender: the content of the requests other than the keys, and the request for output itself.

Of the worker pool and the throttle:

- Threads begin where `mg_start` has started all of them; a failing `pthread_create` is not modelled.
- Accepting a connection and handling a request are single steps, because they touch nothing shared.

Of the web server:

- Keep-alive: it is switched off in the code, so each connection is one request.
- `mg_read` with a negative length other than -1 fails its assertion; the model requires the assertion.
- BodyReader.Connection.Read: sizes are unbounded; the casts to `int` are not modelled.
- Sockets, SSL, CGI, directory listings, logging, password files.
- `byteReverse` is empty on little-endian hosts; the model reads and writes words least significant byte first, which is what it is for.
- Md5Stream.Md5Context.Final: the context is not cleared (the code clears only as many bytes as a pointer has).

Of the archive tools:

- ZipRepair.UnzRepair: the buffers for names and extra fields are as long as needed (the code has 256 and 1024 bytes), files are shorter than 2^31 bytes, and writing and allocating never fail.
- The CRC table is arbitrary; keys are 32 bits wide, as on the hosts the program is for.
- The random bytes of `crypthead` are a parameter.
- Uinput drivers, image headers, the other parts of minizip.
