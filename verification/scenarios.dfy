/**
 * The behaviour the repository's console-logger tests check, stated for
 * every clock reading of the clock's shape rather than for one instant.
 */
module Scenarios {
  import opened Text
  import opened Template
  import opened Logger

  /**
   * A level call on a template given by its tokens, with a message free of
   * `%`: the line is the tokens filled in, in the level's colour.
   */
  lemma RenderTokens(toks: seq<Token>, level: Level, message: string, datetime: string, date: string)
    requires WellFormed(toks) && ClockText(datetime) && ClockText(date)
    requires '%' !in message && (CallerTok in toks ==> SelfContained(message))
    ensures Render(ConsoleLogger(Unparse(toks)), level, message, datetime, date)
         == Styled(Fill(toks, message, TagName(level), datetime, date), ColourOf(level))
  {
    var format := Unparse(toks);
    TokenizeUnparse(toks);
    CallerMarkRead(format);
    ReplaceInPlain(message, CallerMark, TagName(level));
    if CallerTok in toks {
      SelfContainedSeamsClear(format, message, datetime, date);
    }
    RenderMatchesScan(ConsoleLogger(format), level, message, datetime, date);
  }

  /** Literal text that may follow a placeholder token without being read into it. */
  predicate Gap(tok: Token, text: string) {
    '%' !in text && (tok == DateTok && |text| > 0 ==> text[0] != 't')
  }

  /**
   * A stretch of `%`-free literal text and a placeholder, put in front of
   * a well-formed token sequence the placeholder may precede: the result
   * is well-formed, starts with the text's first character (or the
   * placeholder), and its template text and line are the stretch's text
   * and mark or value followed by the rest's.
   */
  lemma Prepend(text: string, tok: Token, rest: seq<Token>,
                message: string, caller: string, datetime: string, date: string)
    requires '%' !in text && !tok.Lit? && WellFormed(rest)
    requires |rest| > 0 ==> CanFollow(tok, rest[0])
    ensures WellFormed(Lits(text) + ([tok] + rest))
    ensures Lits(text) + ([tok] + rest) != []
    ensures (Lits(text) + ([tok] + rest))[0] == if |text| > 0 then Lit(text[0]) else tok
    ensures Unparse(Lits(text) + ([tok] + rest)) == text + (MarkText(tok) + Unparse(rest))
    ensures Fill(Lits(text) + ([tok] + rest), message, caller, datetime, date)
         == text + (Value(tok, message, caller, datetime, date) + Fill(rest, message, caller, datetime, date))
  {
    var lits, back := Lits(text), [tok] + rest;
    assert back[0] == tok && back[1..] == rest;
    LitsWellFormed(text);
    WellFormedAppend(lits, back);
    if |lits| > 0 {
      assert (lits + back)[0] == lits[0];
    } else {
      assert lits + back == back;
    }
    PrependFill(text, tok, rest, MessageMark, CallerMark, DateTimeMark, DateMark);
    PrependFill(text, tok, rest, message, caller, datetime, date);
  }

  /** The line of a literal stretch and a placeholder in front of a token sequence. */
  lemma PrependFill(text: string, tok: Token, rest: seq<Token>,
                    message: string, caller: string, datetime: string, date: string)
    ensures Fill(Lits(text) + ([tok] + rest), message, caller, datetime, date)
         == text + (Value(tok, message, caller, datetime, date) + Fill(rest, message, caller, datetime, date))
  {
    FillAppend(Lits(text), [tok] + rest, message, caller, datetime, date);
    FillLits(text, message, caller, datetime, date);
    FillCons(tok, rest, message, caller, datetime, date);
  }

  /** The closing text of a template, as literal tokens. */
  lemma Closing(text: string, message: string, caller: string, datetime: string, date: string)
    requires '%' !in text
    ensures WellFormed(Lits(text))
    ensures Unparse(Lits(text)) == text && Fill(Lits(text), message, caller, datetime, date) == text
  {
    LitsWellFormed(text);
    FillLits(text, MessageMark, CallerMark, DateTimeMark, DateMark);
    FillLits(text, message, caller, datetime, date);
  }

  /** A placeholder of a template and the literal text that follows it, up to the next placeholder. */
  datatype Slot = Slot(tok: Token, after: string)

  /** Every slot holds a placeholder followed by text that cannot be read into it. */
  predicate Gaps(slots: seq<Slot>) {
    forall k :: 0 <= k < |slots| ==> !slots[k].tok.Lit? && Gap(slots[k].tok, slots[k].after)
  }

  /** The template text of the slots. */
  function Marks(slots: seq<Slot>): string
    decreases |slots|
  {
    if slots == [] then "" else MarkText(slots[0].tok) + (slots[0].after + Marks(slots[1..]))
  }

  /** The line the slots fill in to. */
  function Shown(slots: seq<Slot>, message: string, caller: string, datetime: string, date: string): string
    decreases |slots|
  {
    if slots == [] then ""
    else Value(slots[0].tok, message, caller, datetime, date) + (slots[0].after + Shown(slots[1..], message, caller, datetime, date))
  }

  /** The tokens of a template made of leading text and slots. */
  function Tokens(lead: string, slots: seq<Slot>): seq<Token>
    decreases |slots|
  {
    if slots == [] then Lits(lead) else Lits(lead) + ([slots[0].tok] + Tokens(slots[0].after, slots[1..]))
  }

  /**
   * Leading `%`-free text and slots make a well-formed token sequence that
   * spells the template and fills in to the line.
   */
  lemma {:induction false} Spell(lead: string, slots: seq<Slot>,
                                 message: string, caller: string, datetime: string, date: string)
    requires '%' !in lead && Gaps(slots)
    ensures WellFormed(Tokens(lead, slots))
    ensures |lead| > 0 || |slots| > 0 ==>
      Tokens(lead, slots) != [] && Tokens(lead, slots)[0] == if |lead| > 0 then Lit(lead[0]) else slots[0].tok
    ensures Unparse(Tokens(lead, slots)) == lead + Marks(slots)
    ensures Fill(Tokens(lead, slots), message, caller, datetime, date) == lead + Shown(slots, message, caller, datetime, date)
    decreases |slots|
  {
    if slots == [] {
      Closing(lead, message, caller, datetime, date);
      assert lead + Marks(slots) == lead && lead + Shown(slots, message, caller, datetime, date) == lead;
      if |lead| > 0 {
        assert Lits(lead)[0] == Lit(lead[0]);
      }
    } else {
      var slot, more := slots[0], slots[1..];
      assert Gaps(more) by {
        forall k | 0 <= k < |more|
          ensures !more[k].tok.Lit? && Gap(more[k].tok, more[k].after)
        {
          assert more[k] == slots[k + 1];
        }
      }
      assert !slot.tok.Lit? && Gap(slot.tok, slot.after);
      Spell(slot.after, more, message, caller, datetime, date);
      Prepend(lead, slot.tok, Tokens(slot.after, more), message, caller, datetime, date);
    }
  }

  /**
   * A level call on a template given as leading text and slots prints the
   * slots filled in, in the level's colour.
   */
  lemma Layout(lead: string, slots: seq<Slot>,
               level: Level, message: string, datetime: string, date: string,
               format: string, line: string, colour: Colour)
    requires '%' !in lead && Gaps(slots)
    requires ClockText(datetime) && ClockText(date) && '%' !in message && SelfContained(message)
    requires format == lead + Marks(slots)
    requires line == lead + Shown(slots, message, TagName(level), datetime, date)
    requires colour == ColourOf(level)
    ensures Render(ConsoleLogger(format), level, message, datetime, date) == Styled(line, colour)
  {
    Spell(lead, slots, message, TagName(level), datetime, date);
    RenderTokens(Tokens(lead, slots), level, message, datetime, date);
  }

  /** `[ %dt - %i ] - %m` and its expected line, cut at the placeholders. */
  lemma WarnWithDateTimePieces(datetime: string)
    ensures "[ %dt - %i ] - %m" == "[ " + ("%dt" + (" - " + ("%i" + (" ] - " + ("%m" + ("" + ""))))))
    ensures "[ " + datetime + " - Warn ] - Warn message" == "[ " + (datetime + (" - " + ("Warn" + (" ] - " + ("Warn message" + ("" + ""))))))
  {
  }

  /** The warn call on `[ %dt - %i ] - %m` prints the expected line in the level's colour. */
  lemma WarnWithDateTime(datetime: string, date: string)
    requires ClockText(datetime) && ClockText(date)
    ensures Render(ConsoleLogger("[ %dt - %i ] - %m"), Warn, "Warn message", datetime, date)
         == Styled("[ " + datetime + " - Warn ] - Warn message", Yellow)
  {
    WarnWithDateTimePieces(datetime);
    var slots := [Slot(DateTimeTok, " - "), Slot(CallerTok, " ] - "), Slot(MessageTok, "")];
    assert slots[1..] == [Slot(CallerTok, " ] - "), Slot(MessageTok, "")] &&
           slots[1..][1..] == [Slot(MessageTok, "")] &&
           slots[1..][1..][1..] == [];
    Layout("[ ", slots, Warn, "Warn message", datetime, date,
           "[ %dt - %i ] - %m", "[ " + datetime + " - Warn ] - Warn message", Yellow);
  }

  /** `[ %d - %i ] - %m` and its expected line, cut at the placeholders. */
  lemma WarnWithDatePieces(date: string)
    ensures "[ %d - %i ] - %m" == "[ " + ("%d" + (" - " + ("%i" + (" ] - " + ("%m" + ("" + ""))))))
    ensures "[ " + date + " - Warn ] - Warn message" == "[ " + (date + (" - " + ("Warn" + (" ] - " + ("Warn message" + ("" + ""))))))
  {
  }

  /** The warn call on `[ %d - %i ] - %m` prints the expected line in the level's colour. */
  lemma WarnWithDate(datetime: string, date: string)
    requires ClockText(datetime) && ClockText(date)
    ensures Render(ConsoleLogger("[ %d - %i ] - %m"), Warn, "Warn message", datetime, date)
         == Styled("[ " + date + " - Warn ] - Warn message", Yellow)
  {
    WarnWithDatePieces(date);
    var slots := [Slot(DateTok, " - "), Slot(CallerTok, " ] - "), Slot(MessageTok, "")];
    assert slots[1..] == [Slot(CallerTok, " ] - "), Slot(MessageTok, "")] &&
           slots[1..][1..] == [Slot(MessageTok, "")] &&
           slots[1..][1..][1..] == [];
    Layout("[ ", slots, Warn, "Warn message", datetime, date,
           "[ %d - %i ] - %m", "[ " + date + " - Warn ] - Warn message", Yellow);
  }

  /** `%m` and its expected line, cut at the placeholders. */
  lemma WarnJustMessagePieces()
    ensures "%m" == "" + ("%m" + ("" + ""))
    ensures "Warn message" == "" + ("Warn message" + ("" + ""))
  {
  }

  /** The warn call on `%m` prints the expected line in the level's colour. */
  lemma WarnJustMessage(datetime: string, date: string)
    requires ClockText(datetime) && ClockText(date)
    ensures Render(ConsoleLogger("%m"), Warn, "Warn message", datetime, date)
         == Styled("Warn message", Yellow)
  {
    WarnJustMessagePieces();
    var slots := [Slot(MessageTok, "")];
    assert slots[1..] == [];
    Layout("", slots, Warn, "Warn message", datetime, date,
           "%m", "Warn message", Yellow);
  }

  /** `(%dt) - (%i) - (%m)` and its expected line, cut at the placeholders. */
  lemma InfoWithDateTimePieces(datetime: string)
    ensures "(%dt) - (%i) - (%m)" == "(" + ("%dt" + (") - (" + ("%i" + (") - (" + ("%m" + (")" + ""))))))
    ensures "(" + datetime + ") - (Info) - (Info message)" == "(" + (datetime + (") - (" + ("Info" + (") - (" + ("Info message" + (")" + ""))))))
  {
  }

  /** The info call on `(%dt) - (%i) - (%m)` prints the expected line in the level's colour. */
  lemma InfoWithDateTime(datetime: string, date: string)
    requires ClockText(datetime) && ClockText(date)
    ensures Render(ConsoleLogger("(%dt) - (%i) - (%m)"), Info, "Info message", datetime, date)
         == Styled("(" + datetime + ") - (Info) - (Info message)", Blue)
  {
    InfoWithDateTimePieces(datetime);
    var slots := [Slot(DateTimeTok, ") - ("), Slot(CallerTok, ") - ("), Slot(MessageTok, ")")];
    assert slots[1..] == [Slot(CallerTok, ") - ("), Slot(MessageTok, ")")] &&
           slots[1..][1..] == [Slot(MessageTok, ")")] &&
           slots[1..][1..][1..] == [];
    Layout("(", slots, Info, "Info message", datetime, date,
           "(%dt) - (%i) - (%m)", "(" + datetime + ") - (Info) - (Info message)", Blue);
  }

  /** `|%d | | %i | - |%m|` and its expected line, cut at the placeholders. */
  lemma InfoWithDatePieces(date: string)
    ensures "|%d | | %i | - |%m|" == "|" + ("%d" + (" | | " + ("%i" + (" | - |" + ("%m" + ("|" + ""))))))
    ensures "|" + date + " | | Info | - |Info message|" == "|" + (date + (" | | " + ("Info" + (" | - |" + ("Info message" + ("|" + ""))))))
  {
  }

  /** The info call on `|%d | | %i | - |%m|` prints the expected line in the level's colour. */
  lemma InfoWithDate(datetime: string, date: string)
    requires ClockText(datetime) && ClockText(date)
    ensures Render(ConsoleLogger("|%d | | %i | - |%m|"), Info, "Info message", datetime, date)
         == Styled("|" + date + " | | Info | - |Info message|", Blue)
  {
    InfoWithDatePieces(date);
    var slots := [Slot(DateTok, " | | "), Slot(CallerTok, " | - |"), Slot(MessageTok, "|")];
    assert slots[1..] == [Slot(CallerTok, " | - |"), Slot(MessageTok, "|")] &&
           slots[1..][1..] == [Slot(MessageTok, "|")] &&
           slots[1..][1..][1..] == [];
    Layout("|", slots, Info, "Info message", datetime, date,
           "|%d | | %i | - |%m|", "|" + date + " | | Info | - |Info message|", Blue);
  }

  /** `'%m'` and its expected line, cut at the placeholders. */
  lemma InfoJustMessagePieces()
    ensures "'%m'" == "'" + ("%m" + ("'" + ""))
    ensures "'Info message'" == "'" + ("Info message" + ("'" + ""))
  {
  }

  /** The info call on `'%m'` prints the expected line in the level's colour. */
  lemma InfoJustMessage(datetime: string, date: string)
    requires ClockText(datetime) && ClockText(date)
    ensures Render(ConsoleLogger("'%m'"), Info, "Info message", datetime, date)
         == Styled("'Info message'", Blue)
  {
    InfoJustMessagePieces();
    var slots := [Slot(MessageTok, "'")];
    assert slots[1..] == [];
    Layout("'", slots, Info, "Info message", datetime, date,
           "'%m'", "'Info message'", Blue);
  }

  /** `%dt;%m` and its expected line, cut at the placeholders. */
  lemma LogWithDateTimePieces(datetime: string)
    ensures "%dt;%m" == "" + ("%dt" + (";" + ("%m" + ("" + ""))))
    ensures datetime + ";Log message" == "" + (datetime + (";" + ("Log message" + ("" + ""))))
  {
  }

  /** The log call on `%dt;%m` prints the expected line in the level's colour. */
  lemma LogWithDateTime(datetime: string, date: string)
    requires ClockText(datetime) && ClockText(date)
    ensures Render(ConsoleLogger("%dt;%m"), Log, "Log message", datetime, date)
         == Styled(datetime + ";Log message", Green)
  {
    LogWithDateTimePieces(datetime);
    var slots := [Slot(DateTimeTok, ";"), Slot(MessageTok, "")];
    assert slots[1..] == [Slot(MessageTok, "")] &&
           slots[1..][1..] == [];
    Layout("", slots, Log, "Log message", datetime, date,
           "%dt;%m", datetime + ";Log message", Green);
  }

  /** `%i;%m` and its expected line, cut at the placeholders. */
  lemma LogWithCallerPieces()
    ensures "%i;%m" == "" + ("%i" + (";" + ("%m" + ("" + ""))))
    ensures "Log;Log message" == "" + ("Log" + (";" + ("Log message" + ("" + ""))))
  {
  }

  /** The log call on `%i;%m` prints the expected line in the level's colour. */
  lemma LogWithCaller(datetime: string, date: string)
    requires ClockText(datetime) && ClockText(date)
    ensures Render(ConsoleLogger("%i;%m"), Log, "Log message", datetime, date)
         == Styled("Log;Log message", Green)
  {
    LogWithCallerPieces();
    var slots := [Slot(CallerTok, ";"), Slot(MessageTok, "")];
    assert slots[1..] == [Slot(MessageTok, "")] &&
           slots[1..][1..] == [];
    Layout("", slots, Log, "Log message", datetime, date,
           "%i;%m", "Log;Log message", Green);
  }

  /** `%m - %m` and its expected line, cut at the placeholders. */
  lemma LogMessageTwicePieces()
    ensures "%m - %m" == "" + ("%m" + (" - " + ("%m" + ("" + ""))))
    ensures "Log message - Log message" == "" + ("Log message" + (" - " + ("Log message" + ("" + ""))))
  {
  }

  /** The log call on `%m - %m` prints the expected line in the level's colour. */
  lemma LogMessageTwice(datetime: string, date: string)
    requires ClockText(datetime) && ClockText(date)
    ensures Render(ConsoleLogger("%m - %m"), Log, "Log message", datetime, date)
         == Styled("Log message - Log message", Green)
  {
    LogMessageTwicePieces();
    var slots := [Slot(MessageTok, " - "), Slot(MessageTok, "")];
    assert slots[1..] == [Slot(MessageTok, "")] &&
           slots[1..][1..] == [];
    Layout("", slots, Log, "Log message", datetime, date,
           "%m - %m", "Log message - Log message", Green);
  }

  /** `%dt` and its expected line, cut at the placeholders. */
  lemma DebugWithDateTimePieces(datetime: string)
    ensures "%dt" == "" + ("%dt" + ("" + ""))
    ensures datetime == "" + (datetime + ("" + ""))
  {
  }

  /** The debug call on `%dt` prints the expected line in the level's colour. */
  lemma DebugWithDateTime(datetime: string, date: string)
    requires ClockText(datetime) && ClockText(date)
    ensures Render(ConsoleLogger("%dt"), Debug, "Debug Message", datetime, date)
         == Styled(datetime, Purple)
  {
    DebugWithDateTimePieces(datetime);
    var slots := [Slot(DateTimeTok, "")];
    assert slots[1..] == [];
    Layout("", slots, Debug, "Debug Message", datetime, date,
           "%dt", datetime, Purple);
  }

  /** `%i -> %m` and its expected line, cut at the placeholders. */
  lemma DebugWithCallerPieces()
    ensures "%i -> %m" == "" + ("%i" + (" -> " + ("%m" + ("" + ""))))
    ensures "Debug -> Debug message" == "" + ("Debug" + (" -> " + ("Debug message" + ("" + ""))))
  {
  }

  /** The debug call on `%i -> %m` prints the expected line in the level's colour. */
  lemma DebugWithCaller(datetime: string, date: string)
    requires ClockText(datetime) && ClockText(date)
    ensures Render(ConsoleLogger("%i -> %m"), Debug, "Debug message", datetime, date)
         == Styled("Debug -> Debug message", Purple)
  {
    DebugWithCallerPieces();
    var slots := [Slot(CallerTok, " -> "), Slot(MessageTok, "")];
    assert slots[1..] == [Slot(MessageTok, "")] &&
           slots[1..][1..] == [];
    Layout("", slots, Debug, "Debug message", datetime, date,
           "%i -> %m", "Debug -> Debug message", Purple);
  }

  /** `%m - %m -> %dt (%i)` and its expected line, cut at the placeholders. */
  lemma DebugMessageDateTimeCallerPieces(datetime: string)
    ensures "%m - %m -> %dt (%i)" == "" + ("%m" + (" - " + ("%m" + (" -> " + ("%dt" + (" (" + ("%i" + (")" + ""))))))))
    ensures "Debug message - Debug message -> " + datetime + " (Debug)" == "" + ("Debug message" + (" - " + ("Debug message" + (" -> " + (datetime + (" (" + ("Debug" + (")" + ""))))))))
  {
  }

  /** The debug call on `%m - %m -> %dt (%i)` prints the expected line in the level's colour. */
  lemma DebugMessageDateTimeCaller(datetime: string, date: string)
    requires ClockText(datetime) && ClockText(date)
    ensures Render(ConsoleLogger("%m - %m -> %dt (%i)"), Debug, "Debug message", datetime, date)
         == Styled("Debug message - Debug message -> " + datetime + " (Debug)", Purple)
  {
    DebugMessageDateTimeCallerPieces(datetime);
    var slots := [Slot(MessageTok, " - "), Slot(MessageTok, " -> "), Slot(DateTimeTok, " ("), Slot(CallerTok, ")")];
    assert slots[1..] == [Slot(MessageTok, " -> "), Slot(DateTimeTok, " ("), Slot(CallerTok, ")")] &&
           slots[1..][1..] == [Slot(DateTimeTok, " ("), Slot(CallerTok, ")")] &&
           slots[1..][1..][1..] == [Slot(CallerTok, ")")] &&
           slots[1..][1..][1..][1..] == [];
    Layout("", slots, Debug, "Debug message", datetime, date,
           "%m - %m -> %dt (%i)", "Debug message - Debug message -> " + datetime + " (Debug)", Purple);
  }

  /** `%m %dt` and its expected line, cut at the placeholders. */
  lemma ErrorWithDateTimePieces(datetime: string)
    ensures "%m %dt" == "" + ("%m" + (" " + ("%dt" + ("" + ""))))
    ensures "An error occurred at " + datetime == "" + ("An error occurred at" + (" " + (datetime + ("" + ""))))
  {
  }

  /** The error call on `%m %dt` prints the expected line in the level's colour. */
  lemma ErrorWithDateTime(datetime: string, date: string)
    requires ClockText(datetime) && ClockText(date)
    ensures Render(ConsoleLogger("%m %dt"), Error, "An error occurred at", datetime, date)
         == Styled("An error occurred at " + datetime, Red)
  {
    ErrorWithDateTimePieces(datetime);
    var slots := [Slot(MessageTok, " "), Slot(DateTimeTok, "")];
    assert slots[1..] == [Slot(DateTimeTok, "")] &&
           slots[1..][1..] == [];
    Layout("", slots, Error, "An error occurred at", datetime, date,
           "%m %dt", "An error occurred at " + datetime, Red);
  }

  /** `%m` and its expected line, cut at the placeholders. */
  lemma ErrorJustMessagePieces()
    ensures "%m" == "" + ("%m" + ("" + ""))
    ensures "Error message" == "" + ("Error message" + ("" + ""))
  {
  }

  /** The error call on `%m` prints the expected line in the level's colour. */
  lemma ErrorJustMessage(datetime: string, date: string)
    requires ClockText(datetime) && ClockText(date)
    ensures Render(ConsoleLogger("%m"), Error, "Error message", datetime, date)
         == Styled("Error message", Red)
  {
    ErrorJustMessagePieces();
    var slots := [Slot(MessageTok, "")];
    assert slots[1..] == [];
    Layout("", slots, Error, "Error message", datetime, date,
           "%m", "Error message", Red);
  }

  /** `%m;%d;%i` and its expected line, cut at the placeholders. */
  lemma DebugMessageDateCallerPieces(date: string)
    ensures "%m;%d;%i" == "" + ("%m" + (";" + ("%d" + (";" + ("%i" + ("" + ""))))))
    ensures "Error message;" + date + ";Debug" == "" + ("Error message" + (";" + (date + (";" + ("Debug" + ("" + ""))))))
  {
  }

  /** The debug call on `%m;%d;%i` tags the line `Debug`, the debug method's own tag. */
  lemma DebugMessageDateCaller(datetime: string, date: string)
    requires ClockText(datetime) && ClockText(date)
    ensures Render(ConsoleLogger("%m;%d;%i"), Debug, "Error message", datetime, date)
         == Styled("Error message;" + date + ";Debug", Purple)
  {
    DebugMessageDateCallerPieces(date);
    var slots := [Slot(MessageTok, ";"), Slot(DateTok, ";"), Slot(CallerTok, "")];
    assert slots[1..] == [Slot(DateTok, ";"), Slot(CallerTok, "")] && slots[1..][1..] == [Slot(CallerTok, "")] && slots[1..][1..][1..] == [];
    Layout("", slots, Debug, "Error message", datetime, date,
           "%m;%d;%i", "Error message;" + date + ";Debug", Purple);
  }

  /**
   * The same call does not print the `Error` tag: the debug method always
   * passes `Debug`, whatever the message says.
   */
  lemma DebugMessageDateCallerNotError(datetime: string, date: string)
    requires ClockText(datetime) && ClockText(date)
    ensures Render(ConsoleLogger("%m;%d;%i"), Debug, "Error message", datetime, date)
         != Styled("Error message;" + date + ";Error", Purple)
  {
    DebugMessageDateCaller(datetime, date);
    var shown, expected := "Error message;" + date + ";Debug", "Error message;" + date + ";Error";
    assert shown[|shown| - 1] != expected[|expected| - 1];
  }
}
