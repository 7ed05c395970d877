# lumus-log console logger, modelled in Dafny

lumus-log's `ConsoleLogger` is a template logger. It is built from a
format string. Each of its five level methods (`warn`, `log`, `info`,
`debug`, `error`) runs the template through a small parser and prints the
result in the level's colour. The parser makes four passes, always in this
order:

1. `%dt` becomes the date-time.
2. `%d` becomes the date.
3. `%m` becomes the message.
4. `%i` becomes the level's tag (`Warn`, `Log`, `Info`, `Debug`, `Error`).

Each pass runs only if the *original template* contains its placeholder.
Each pass then replaces every occurrence, left to right and without
overlap, in the text the earlier passes produced.

The project has four modules:

- `Text` (`text.dfy`): substring search and replace-all with the semantics
  of Rust's `str::contains` and `str::replace`, and lemmas about how they
  interact with concatenation.
- `Template` (`template.dfy`): a reference reading of a template. The
  template is split once, left to right, into literal characters and
  placeholder tokens (`Tokenize`). A token sequence is written back
  (`Unparse`) or filled in (`Fill`). `Scan` is the one-pass expansion that
  the four passes are proved to agree with.
- `Logger` (`logger.dfy`): the level table, the logger, the parser
  (`Parse`) and a level call (`Render`), with the theorems about them.
- `Scenarios` (`scenarios.dfy`): the lines the repository's console-logger
  tests expect, proved for every clock reading of the clock's shape.

`ConsoleLogger::new` is the datatype constructor `Logger.ConsoleLogger(format)`.
The logger holds the template and never changes it.

The level methods return nothing; they only print (src/lib.rs:39-57).
`Render` returns the printed line and its colour.

The clock is read twice, once for `%dt` and once for `%d`
(src/lib.rs:19, 24), so `datetime` and `date` are independent parameters.

## Model

| member | source | states |
|---|---|---|
| Logger.TagName | src/lib.rs:39-57 | The tag each level method passes to the parser is non-empty and holds no `%`, so it never brings a placeholder of its own. It names its level: reading the tag back gives that level. |
| Logger.ColourOf | src/lib.rs:39-57 | Each level method's colour belongs to that level alone: reading the colour back gives the level. |
| Logger.Render | src/lib.rs:39-57 | A level call paints its line in the level's own colour, whatever the template and message. |
| Logger.LevelTableDistinct | src/lib.rs:39-57 | Each level method has its own tag and its own colour: two levels share a tag, or a colour, only if they are the same level. |
| Logger.Parse | src/lib.rs:15-37 | A template with no `%d`, `%m` or `%i` (so no `%dt` either) comes back from the parser unchanged. |
| Logger.ParseMatchesScan | src/lib.rs:15-37 | For clock readings of the clock's shape, the four gated passes equal one left-to-right reading of the template. Each `%dt`, `%d`, `%m` and `%i` of the template becomes the date-time, date, message and tag. The message has its own `%i` replaced exactly when the template has one. When the template has `%i`, this is stated for messages that do not join the template text next to them into a new `%i` (`CallerSeamsClear`). An empty message and one starting with `i` are included. |
| Logger.SelfContainedSeamsClear | src/lib.rs:32-34 | A message that is non-empty, does not start with `i` and does not end with `%` never joins the template text into a new `%i`, in any template. |
| Logger.RenderMatchesScan | src/lib.rs:39-57 | A level call's text is the template read once, with the level's tag as caller, under the conditions of ParseMatchesScan. |
| Logger.DatesFullyExpanded | src/lib.rs:18-26 | After the `%dt` and `%d` passes, no `%d` and no `%dt` is left in the line. The `%d` pass never splits a `%dt`, because the `%dt` pass runs first. |
| Logger.MessageVerbatim | src/lib.rs:28-34 | When the template has no `%i`, the message goes into every `%m` verbatim, whatever it contains. A `%d`, `%dt` or `%i` in the message stays in the line, because the date passes ran before the message went in. |
| Logger.MessageTagged | src/lib.rs:28-34 | When the template has `%i`, every `%i` the message brings is also replaced by the tag. The gate reads the template, but the pass runs over the whole line. |
| Logger.CallerMarkTokens | src/lib.rs:32 | The `%i` gate opens exactly when the template's reading contains a caller placeholder. |
| Logger.MessageMarkTokens | src/lib.rs:28 | The `%m` gate opens exactly when the template's reading contains a message placeholder. |
| Logger.JustMessage | src/lib.rs:28-30 | The template `%m` prints exactly the message, for any message, including one holding placeholders of its own. |
| Logger.JustDateTime | src/lib.rs:18-26 | The template `%dt` prints exactly the date-time. The `%d` pass still runs, but finds nothing to change. |
| Logger.JustDate | src/lib.rs:23-26 | The template `%d` prints exactly the date. |
| Logger.CallerReachesMessage | src/lib.rs:28-34 | The template `%i %m` prints the tag, a space, and the message with each of its own `%i` replaced by the tag, for any message. |
| Template.UnparseTokenize | src/lib.rs:15-37 | Reading a template into tokens and writing them back gives the template, so the one-pass reading covers every character the passes see. |
| Template.TokenizeUnparse | src/lib.rs:15-37 | Every well-formed token sequence is read back from its own text, so any template can be given by its placeholders and the literal text between them. |
| Text.ContainsIffOccurs | src/lib.rs:18 | The recursive substring search behind the gates finds a pattern exactly when it occurs at some position. |
| Text.ReplaceAll | src/lib.rs:18-34 | Replace-all leaves the text unchanged exactly when the pattern does not occur in it or is replaced by itself. A longer replacement never shortens the text, and a shorter one never lengthens it. |
| Text.ReplaceAllAppend | src/lib.rs:18-34 | Replacing in a concatenation is replacing in each part, when no occurrence straddles the seam. |
| Scenarios.RenderTokens | src/lib.rs:15-57 | A level call on a template given by its tokens prints the tokens filled in, in the level's colour. This is stated for `%`-free messages. When the tokens hold `%i`, the message must also be non-empty and must not start with `i`. |
| Scenarios.WarnWithDateTime | tests/console_logger.rs:9-16 | `[ %dt - %i ] - %m` with warn prints `[ <date-time> - Warn ] - Warn message` in yellow. |
| Scenarios.WarnWithDate | tests/console_logger.rs:19-26 | `[ %d - %i ] - %m` with warn prints `[ <date> - Warn ] - Warn message` in yellow. |
| Scenarios.WarnJustMessage | tests/console_logger.rs:29-35 | `%m` with warn prints `Warn message` in yellow. |
| Scenarios.InfoWithDateTime | tests/console_logger.rs:41-48 | `(%dt) - (%i) - (%m)` with info prints `(<date-time>) - (Info) - (Info message)` in blue. |
| Scenarios.InfoWithDate | tests/console_logger.rs:51-58 | The pipe-framed template with `%d`, `%i` and `%m` prints the date, `Info` and `Info message` in those places, in blue. |
| Scenarios.InfoJustMessage | tests/console_logger.rs:61-67 | `'%m'` with info prints `'Info message'` in blue. |
| Scenarios.LogWithDateTime | tests/console_logger.rs:73-80 | `%dt;%m` with log prints `<date-time>;Log message` in green. |
| Scenarios.LogWithCaller | tests/console_logger.rs:83-89 | `%i;%m` with log prints `Log;Log message` in green. |
| Scenarios.LogMessageTwice | tests/console_logger.rs:92-98 | `%m - %m` with log prints `Log message - Log message` in green. |
| Scenarios.DebugWithDateTime | tests/console_logger.rs:104-111 | `%dt` with debug prints exactly the date-time, in purple. |
| Scenarios.DebugWithCaller | tests/console_logger.rs:114-120 | `%i -> %m` with debug prints `Debug -> Debug message` in purple. |
| Scenarios.DebugMessageDateTimeCaller | tests/console_logger.rs:123-130 | `%m - %m -> %dt (%i)` with debug prints `Debug message - Debug message -> <date-time> (Debug)` in purple. |
| Scenarios.ErrorWithDateTime | tests/console_logger.rs:136-143 | `%m %dt` with error prints `An error occurred at <date-time>` in red. |
| Scenarios.ErrorJustMessage | tests/console_logger.rs:146-152 | `%m` with error prints `Error message` in red. |
| Scenarios.DebugMessageDateCaller | tests/console_logger.rs:155-161 | `%m;%d;%i` with debug and the message `Error message` prints `Error message;<date>;Debug` in purple. The tag is the debug method's own. |
| Scenarios.DebugMessageDateCallerNotError | tests/console_logger.rs:155-161 | The same call does not print the line ending in `;Error` that this test expects. |

## Left out

- The clock (`chrono::Local::now`): the date-time and the date are parameters. Properties that depend on their shape assume clock text: non-empty, made only of digits, `-`, `+`, `:` and spaces. That is what `%Y-%m-%d %H:%M:%S` and `%Y-%m-%d` print.
- ANSI colouring (the `colored` crate): a line's colour is the `Colour` value paired with its text, not escape bytes.
- `println!`: writing to standard output is not modelled. `Render` returns the line that would be printed.
- The file logger and the verbose console logger: they are not part of this model.
- Logger.ParseMatchesScan: when the template has `%i`, the agreement with the one-pass reading is not stated for a message that joins the template text next to it into a new `%i`. One example is a message ending in `%` just before a literal `i` of the template. Another is a message starting with `i` just after a literal `%`. The four passes then replace that new `%i` too, and the one-pass reading does not describe this. `CallerSeamsClear` states the condition exactly: no `%i` crosses a seam of the line the caller pass rewrites.
- Logger.MessageTagged: for the same reason, this requires `CallerSeamsClear`.
- Logger.RenderMatchesScan: the text part carries the same conditions as ParseMatchesScan.
- Scenarios.RenderTokens: stated only for `%`-free messages that are non-empty and do not start with `i` when the tokens hold `%i`. The scenario messages are all of that kind.
- Text.ReplaceAll: the pattern must be non-empty. Rust's `str::replace` with an empty pattern inserts the replacement between characters, but the parser only ever replaces its four fixed placeholders.
- The tests compare the logger's line with a second, separate clock reading, which may fall in the next second. The scenario lemmas use one reading for both sides, for every reading of the clock's shape.
- The test at tests/console_logger.rs:155-161 expects the tag `Error` from a `debug` call. The code passes `Debug`, so the model proves the `Debug` line and refutes the expected one.
- The `...Pieces` lemmas in `Scenarios` only split each test's template and expected line at its placeholders. They are proof helpers with no counterpart in the code.
