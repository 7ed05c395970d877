/**
 * The template console logger: a logger holds a format template, and each
 * level call expands the template's placeholders with the clock readings,
 * the message and the level's tag, then hands the line, in the level's
 * colour, to the console.
 */
module Logger {
  import opened Text
  import opened Template

  /** The five level methods. */
  datatype Level = Warn | Log | Info | Debug | Error

  /** The colour a level method paints its line with. */
  datatype Colour = Yellow | Green | Blue | Purple | Red

  datatype Option<T> = None | Some(value: T)

  /**
   * The caller tag a level method passes to the parser, the text `%i`
   * expands to. It holds no `%`, so it never brings a placeholder of its
   * own, and it names its level: reading it back gives the level.
   */
  function TagName(level: Level): (name: string)
    ensures |name| > 0 && '%' !in name
    ensures LevelOfTag(name) == Some(level)
  {
    match level
    case Warn => "Warn"
    case Log => "Log"
    case Info => "Info"
    case Debug => "Debug"
    case Error => "Error"
  }

  /** The level whose method passes `name` as its caller tag, if there is one. */
  function LevelOfTag(name: string): Option<Level> {
    if name == "Warn" then Some(Warn)
    else if name == "Log" then Some(Log)
    else if name == "Info" then Some(Info)
    else if name == "Debug" then Some(Debug)
    else if name == "Error" then Some(Error)
    else None
  }

  /** The colour a level method paints its line with; each colour belongs to one level. */
  function ColourOf(level: Level): (colour: Colour)
    ensures LevelOfColour(colour) == level
  {
    match level
    case Warn => Yellow
    case Log => Green
    case Info => Blue
    case Debug => Purple
    case Error => Red
  }

  /** The level whose method paints its line in `colour`. */
  function LevelOfColour(colour: Colour): Level {
    match colour
    case Yellow => Warn
    case Green => Log
    case Blue => Info
    case Purple => Debug
    case Red => Error
  }

  /** A tag that reads back as a level is that level's tag. */
  lemma LevelOfTagSound(name: string)
    ensures LevelOfTag(name).Some? ==> TagName(LevelOfTag(name).value) == name
  {
  }

  /** The level table is one-to-one in both columns: a tag, or a colour, identifies its level. */
  lemma LevelTableDistinct(a: Level, b: Level)
    ensures TagName(a) == TagName(b) <==> a == b
    ensures ColourOf(a) == ColourOf(b) <==> a == b
  {
    assert a != b ==> TagName(a)[0] != TagName(b)[0];
  }

  /**
   * Characters the clock's `%Y-%m-%d %H:%M:%S` and `%Y-%m-%d` renderings
   * are made of (a year outside 0..9999 carries a sign).
   */
  predicate IsClockChar(c: char) {
    ('0' <= c <= '9') || c in "-+: "
  }

  /** A clock reading as the logger obtains it: non-empty, clock characters only. */
  predicate ClockText(s: string) {
    |s| > 0 && forall i :: 0 <= i < |s| ==> IsClockChar(s[i])
  }

  /** A message that cannot run into the template text next to it to form a new `%i`. */
  predicate SelfContained(message: string) {
    |message| > 0 && message[0] != 'i' && message[|message| - 1] != '%'
  }

  /**
   * No `%i` runs across a seam of the line the caller pass rewrites: the
   * template's tokens filled in with the message, the clock readings and
   * `%i` itself. It fails only where the message joins the text around it
   * into a new `%i`, as a message ending in `%` before a literal `i` does.
   */
  predicate CallerSeamsClear(format: string, message: string, datetime: string, date: string) {
    Separated(Tokenize(format), message, CallerMark, datetime, date, CallerMark)
  }

  /**
   * A message that is non-empty, does not start with `i` and does not end
   * with `%` never joins the template text into a new `%i`.
   */
  lemma SelfContainedSeamsClear(format: string, message: string, datetime: string, date: string)
    requires ClockText(datetime) && ClockText(date) && SelfContained(message)
    ensures CallerSeamsClear(format, message, datetime, date)
  {
    TokenizeWellFormed(format);
    ClockTextPlain(datetime, 'i');
    ClockTextPlain(date, 'i');
    assert Plain(CallerMark, 'i') by { assert CallerMark[1] == 'i'; }
    SeparatedForMark(Tokenize(format), message, CallerMark, datetime, date, 'i');
  }

  /** The logger: the format template given at construction, never changed afterwards. */
  datatype ConsoleLogger = ConsoleLogger(format: string)

  /** What a level method hands to the console: the expanded line and its colour. */
  datatype Styled = Styled(text: string, colour: Colour)

  /**
   * One gated pass of the parser: replace every `pat` in the text so far,
   * but only if the original template contains `pat`.
   */
  function Pass(format: string, s: string, pat: string, rep: string): string
    requires |pat| > 0
  {
    if Contains(format, pat) then ReplaceAll(s, pat, rep) else s
  }

  /** The parser's first two passes: date-time, then date. */
  function ExpandDates(format: string, datetime: string, date: string): string {
    Pass(format, Pass(format, format, DateTimeMark, datetime), DateMark, date)
  }

  /**
   * The parser: starting from the template, four passes in a fixed order,
   * `%dt`, `%d`, `%m`, `%i`, each gated on the template and each rewriting
   * the result of the one before. A template with none of the placeholders
   * comes back unchanged (a `%dt` would contain `%d`).
   */
  function Parse(format: string, message: string, caller: string, datetime: string, date: string): (line: string)
    ensures !Contains(format, DateMark) && !Contains(format, MessageMark) && !Contains(format, CallerMark)
            ==> line == format
  {
    PrefixContained(format, DateTimeMark, 2);
    assert DateTimeMark[..2] == DateMark;
    Pass(format, Pass(format, ExpandDates(format, datetime, date), MessageMark, message), CallerMark, caller)
  }

  /** A level method: parse with the level's tag and paint the line in the level's colour. */
  function Render(logger: ConsoleLogger, level: Level, message: string, datetime: string, date: string)
    : (line: Styled)
    ensures line.colour == ColourOf(level) && LevelOfColour(line.colour) == level
  {
    Styled(Parse(logger.format, message, TagName(level), datetime, date), ColourOf(level))
  }

  /**
   * The line a level call hands to the console. With clock readings of the
   * clock's shape, and a message that does not join the template text into
   * a new `%i` when the template has one, it is the template read once left
   * to right with every placeholder replaced and the level's tag as caller.
   */
  lemma RenderMatchesScan(logger: ConsoleLogger, level: Level, message: string, datetime: string, date: string)
    ensures ClockText(datetime) && ClockText(date)
            && (Contains(logger.format, CallerMark) ==> CallerSeamsClear(logger.format, message, datetime, date))
            ==> Render(logger, level, message, datetime, date).text
                == Scan(logger.format, message, TagName(level), datetime, date)
  {
    if && ClockText(datetime) && ClockText(date)
       && (Contains(logger.format, CallerMark) ==> CallerSeamsClear(logger.format, message, datetime, date))
    {
      ParseMatchesScan(logger.format, message, TagName(level), datetime, date);
    }
  }

  /** Clock text holds no `%` and neither starts nor ends a placeholder. */
  lemma ClockTextPlain(s: string, x: char)
    requires ClockText(s) && x in "dmi"
    ensures Plain(s, x) && '%' !in s
  {
    assert IsClockChar(s[0]) && IsClockChar(s[|s| - 1]);
    forall i | 0 <= i < |s|
      ensures s[i] != '%'
    {
      assert IsClockChar(s[i]);
    }
  }

  /** A non-empty pattern led by `%` leaves `%`-free text unchanged. */
  lemma ReplaceInPlain(s: string, pat: string, rep: string)
    requires |pat| > 0 && pat[0] == '%' && '%' !in s
    ensures ReplaceAll(s, pat, rep) == s
  {
    ContainsLead(s, pat);
  }

  /** Two texts of the same length contain one another only if equal. */
  lemma SameLengthContains(s: string, pat: string)
    requires |s| == |pat| > 0
    ensures Contains(s, pat) <==> s == pat
  {
    ShortNotContained(s[1..], pat);
  }

  /** The parser after its `%dt` pass, in terms of the template's tokens. */
  lemma AfterDateTimePass(format: string, datetime: string)
    ensures Pass(format, format, DateTimeMark, datetime)
         == Fill(Tokenize(format), MessageMark, CallerMark, datetime, DateMark)
  {
    var toks := Tokenize(format);
    UnparseTokenize(format);
    TokenizeWellFormed(format);
    if Contains(format, DateTimeMark) {
      SeparatedForDateTime(toks);
      FillReplace(toks, MessageMark, CallerMark, DateTimeMark, DateMark, DateTimeMark, datetime);
      assert ReplaceAll(DateTimeMark, DateTimeMark, datetime) == datetime;
    } else {
      TokenShows(toks, DateTimeTok, MessageMark, CallerMark, DateTimeMark, DateMark);
      FillAgrees(toks, MessageMark, CallerMark, DateTimeMark, DateMark, MessageMark, CallerMark, datetime, DateMark);
    }
  }

  /** The `%d` pass over the template's tokens once `%dt` is expanded. */
  lemma DatePassOnTokens(toks: seq<Token>, datetime: string, date: string)
    requires WellFormed(toks) && ClockText(datetime)
    ensures ReplaceAll(Fill(toks, MessageMark, CallerMark, datetime, DateMark), DateMark, date)
         == Fill(toks, MessageMark, CallerMark, datetime, date)
  {
    ClockTextPlain(datetime, 'd');
    assert Plain(MessageMark, 'd') && Plain(CallerMark, 'd') && Plain(DateMark, 'd') by {
      assert MessageMark[1] == 'm' && CallerMark[1] == 'i' && DateMark[1] == 'd';
    }
    SeparatedForMark(toks, MessageMark, CallerMark, datetime, DateMark, 'd');
    FillReplace(toks, MessageMark, CallerMark, datetime, DateMark, DateMark, date);
    SameLengthContains(MessageMark, DateMark);
    SameLengthContains(CallerMark, DateMark);
    ReplaceInPlain(datetime, DateMark, date);
    assert ReplaceAll(DateMark, DateMark, date) == date;
  }

  /** The parser after its two date passes, in terms of the template's tokens. */
  lemma AfterDatePasses(format: string, datetime: string, date: string)
    requires ClockText(datetime)
    ensures ExpandDates(format, datetime, date)
         == Fill(Tokenize(format), MessageMark, CallerMark, datetime, date)
  {
    var toks := Tokenize(format);
    UnparseTokenize(format);
    TokenizeWellFormed(format);
    AfterDateTimePass(format, datetime);
    if Contains(format, DateMark) {
      DatePassOnTokens(toks, datetime, date);
    } else {
      TokenShows(toks, DateTok, MessageMark, CallerMark, DateTimeMark, DateMark);
      FillAgrees(toks, MessageMark, CallerMark, datetime, DateMark, MessageMark, CallerMark, datetime, date);
    }
  }

  /** The `%m` pass over the template's tokens once the dates are expanded. */
  lemma MessagePassOnTokens(toks: seq<Token>, message: string, datetime: string, date: string)
    requires WellFormed(toks) && ClockText(datetime) && ClockText(date)
    ensures ReplaceAll(Fill(toks, MessageMark, CallerMark, datetime, date), MessageMark, message)
         == Fill(toks, message, CallerMark, datetime, date)
  {
    ClockTextPlain(datetime, 'm');
    ClockTextPlain(date, 'm');
    assert Plain(MessageMark, 'm') && Plain(CallerMark, 'm') by {
      assert MessageMark[1] == 'm' && CallerMark[1] == 'i';
    }
    SeparatedForMark(toks, MessageMark, CallerMark, datetime, date, 'm');
    FillReplace(toks, MessageMark, CallerMark, datetime, date, MessageMark, message);
    SameLengthContains(CallerMark, MessageMark);
    ReplaceInPlain(datetime, MessageMark, message);
    ReplaceInPlain(date, MessageMark, message);
    assert ReplaceAll(MessageMark, MessageMark, message) == message;
  }

  /** The parser after its `%m` pass, in terms of the template's tokens; any message. */
  lemma AfterMessagePass(format: string, message: string, datetime: string, date: string)
    requires ClockText(datetime) && ClockText(date)
    ensures Pass(format, ExpandDates(format, datetime, date), MessageMark, message)
         == Fill(Tokenize(format), message, CallerMark, datetime, date)
  {
    var toks := Tokenize(format);
    UnparseTokenize(format);
    TokenizeWellFormed(format);
    AfterDatePasses(format, datetime, date);
    if Contains(format, MessageMark) {
      MessagePassOnTokens(toks, message, datetime, date);
    } else {
      TokenShows(toks, MessageTok, MessageMark, CallerMark, DateTimeMark, DateMark);
      FillAgrees(toks, MessageMark, CallerMark, datetime, date, message, CallerMark, datetime, date);
    }
  }

  /** The `%i` pass over the template's tokens once the message is in. */
  lemma CallerPassOnTokens(toks: seq<Token>, message: string, caller: string, datetime: string, date: string)
    requires ClockText(datetime) && ClockText(date)
    requires Separated(toks, message, CallerMark, datetime, date, CallerMark)
    ensures ReplaceAll(Fill(toks, message, CallerMark, datetime, date), CallerMark, caller)
         == Fill(toks, ReplaceAll(message, CallerMark, caller), caller, datetime, date)
  {
    ClockTextPlain(datetime, 'i');
    ClockTextPlain(date, 'i');
    FillReplace(toks, message, CallerMark, datetime, date, CallerMark, caller);
    ReplaceInPlain(datetime, CallerMark, caller);
    ReplaceInPlain(date, CallerMark, caller);
    assert ReplaceAll(CallerMark, CallerMark, caller) == caller;
  }

  /**
   * The four passes agree with reading the template once, left to right:
   * each `%dt`, `%d`, `%m`, `%i` is replaced by the date-time, the date,
   * the message and the caller tag, the message itself having its `%i`
   * replaced exactly when the template has one. This needs clock readings
   * of the clock's shape and, when the template has `%i`, a message that
   * does not join the template text into a new `%i`.
   */
  lemma ParseMatchesScan(format: string, message: string, caller: string, datetime: string, date: string)
    requires ClockText(datetime) && ClockText(date)
    requires Contains(format, CallerMark) ==> CallerSeamsClear(format, message, datetime, date)
    ensures Parse(format, message, caller, datetime, date) == Scan(format, message, caller, datetime, date)
  {
    var toks := Tokenize(format);
    UnparseTokenize(format);
    TokenizeWellFormed(format);
    AfterMessagePass(format, message, datetime, date);
    CallerMarkRead(format);
    TokenShows(toks, CallerTok, MessageMark, CallerMark, DateTimeMark, DateMark);
    if Contains(format, CallerMark) {
      CallerPassOnTokens(toks, message, caller, datetime, date);
    } else {
      FillAgrees(toks, message, CallerMark, datetime, date, message, caller, datetime, date);
    }
  }

  /**
   * After the two date passes no date placeholder is left: `%dt` went
   * first, so the `%d` pass cannot leave a `t` behind, and clock text
   * brings no `%` of its own.
   */
  lemma DatesFullyExpanded(format: string, datetime: string, date: string)
    requires ClockText(datetime) && ClockText(date)
    ensures !Contains(ExpandDates(format, datetime, date), DateMark)
    ensures !Contains(ExpandDates(format, datetime, date), DateTimeMark)
  {
    var toks := Tokenize(format);
    TokenizeWellFormed(format);
    AfterDatePasses(format, datetime, date);
    ClockTextPlain(datetime, 'd');
    ClockTextPlain(date, 'd');
    assert Plain(MessageMark, 'd') && Plain(CallerMark, 'd') by {
      assert MessageMark[1] == 'm' && CallerMark[1] == 'i';
    }
    SeparatedForMark(toks, MessageMark, CallerMark, datetime, date, 'd');
    SameLengthContains(MessageMark, DateMark);
    SameLengthContains(CallerMark, DateMark);
    ContainsLead(datetime, DateMark);
    ContainsLead(date, DateMark);
    FillWithoutMark(toks, MessageMark, CallerMark, datetime, date, DateMark);
    PrefixContained(ExpandDates(format, datetime, date), DateTimeMark, 2);
    assert DateTimeMark[..2] == DateMark;
  }

  /**
   * A template without `%i` takes the message in verbatim, whatever it
   * holds: a `%d`, `%dt` or `%i` in the message is still there in the
   * line, since the date passes ran before the message went in.
   */
  lemma MessageVerbatim(format: string, message: string, caller: string, datetime: string, date: string)
    requires ClockText(datetime) && ClockText(date) && !Contains(format, CallerMark)
    ensures Parse(format, message, caller, datetime, date) == Fill(Tokenize(format), message, caller, datetime, date)
    ensures Contains(format, MessageMark) ==> Contains(Parse(format, message, caller, datetime, date), message)
  {
    var toks := Tokenize(format);
    AfterMessagePass(format, message, datetime, date);
    FillAgrees(toks, message, CallerMark, datetime, date, message, caller, datetime, date) by {
      CallerMarkTokens(format);
    }
    MessageMarkTokens(format);
    TokenShows(toks, MessageTok, message, caller, datetime, date);
  }

  /**
   * A template with `%i` also rewrites every `%i` the message brings, as
   * the caller pass runs over the whole line; the message must not run
   * into the template text around it to form a new `%i`.
   */
  lemma MessageTagged(format: string, message: string, caller: string, datetime: string, date: string)
    requires ClockText(datetime) && ClockText(date) && Contains(format, CallerMark)
    requires CallerSeamsClear(format, message, datetime, date)
    ensures Parse(format, message, caller, datetime, date)
         == Fill(Tokenize(format), ReplaceAll(message, CallerMark, caller), caller, datetime, date)
  {
    CallerMarkRead(format);
    ParseMatchesScan(format, message, caller, datetime, date);
  }

  /** The template's `%i` is found exactly when it is read as a caller token. */
  lemma CallerMarkTokens(format: string)
    ensures Contains(format, CallerMark) <==> CallerTok in Tokenize(format)
  {
    UnparseTokenize(format);
    CallerMarkRead(format);
    TokenShows(Tokenize(format), CallerTok, MessageMark, CallerMark, DateTimeMark, DateMark);
  }

  /** The template's `%m` is found exactly when it is read as a message token. */
  lemma MessageMarkTokens(format: string)
    ensures Contains(format, MessageMark) <==> MessageTok in Tokenize(format)
  {
    var toks := Tokenize(format);
    UnparseTokenize(format);
    TokenizeWellFormed(format);
    TokenShows(toks, MessageTok, MessageMark, CallerMark, DateTimeMark, DateMark);
    if MessageTok !in toks {
      assert Plain(CallerMark, 'm') && Plain(DateTimeMark, 'm') && Plain(DateMark, 'm') by {
        assert CallerMark[1] == 'i' && DateTimeMark[1] == 'd' && DateMark[1] == 'd';
      }
      SeparatedForMark(toks, CallerMark, CallerMark, DateTimeMark, DateMark, 'm');
      FillAgrees(toks, MessageMark, CallerMark, DateTimeMark, DateMark, CallerMark, CallerMark, DateTimeMark, DateMark);
      SameLengthContains(CallerMark, MessageMark);
      SameLengthContains(DateMark, MessageMark);
      ShortNotContained(MessageMark, DateTimeMark);
      assert !Contains(DateTimeMark, MessageMark) by {
        assert DateTimeMark[..2] != MessageMark && DateTimeMark[1..] == "dt";
        SameLengthContains("dt", MessageMark);
      }
      FillWithoutMark(toks, CallerMark, CallerMark, DateTimeMark, DateMark, MessageMark);
    }
  }

  /**
   * The template `%m` prints the message exactly, whatever it holds: the
   * date and caller passes are gated off by the template, so a `%d`,
   * `%dt` or `%i` in the message survives.
   */
  lemma JustMessage(message: string, caller: string, datetime: string, date: string)
    ensures Parse(MessageMark, message, caller, datetime, date) == message
  {
    assert !Contains(MessageMark, DateTimeMark) by {
      ShortNotContained(MessageMark, DateTimeMark);
    }
    SameLengthContains(MessageMark, DateMark);
    SameLengthContains(MessageMark, CallerMark);
    assert Contains(MessageMark, MessageMark);
    assert ReplaceAll(MessageMark, MessageMark, message) == message;
  }

  /**
   * The template `%dt` prints the date-time exactly: the `%d` pass runs
   * (the template contains `%d`) but finds nothing left to split.
   */
  lemma JustDateTime(message: string, caller: string, datetime: string, date: string)
    requires ClockText(datetime)
    ensures Parse(DateTimeMark, message, caller, datetime, date) == datetime
  {
    assert Contains(DateTimeMark, DateTimeMark);
    assert ReplaceAll(DateTimeMark, DateTimeMark, datetime) == datetime;
    ClockTextPlain(datetime, 'd');
    ReplaceInPlain(datetime, DateMark, date);
    assert !Contains(DateTimeMark, MessageMark) && !Contains(DateTimeMark, CallerMark) by {
      assert DateTimeMark[1..] == "dt" && DateTimeMark[..2] == DateMark;
      SameLengthContains("dt", MessageMark);
      SameLengthContains("dt", CallerMark);
    }
  }

  /** The template `%d` prints the date exactly. */
  lemma JustDate(message: string, caller: string, datetime: string, date: string)
    ensures Parse(DateMark, message, caller, datetime, date) == date
  {
    ShortNotContained(DateMark, DateTimeMark);
    assert Contains(DateMark, DateMark);
    assert ReplaceAll(DateMark, DateMark, date) == date;
    SameLengthContains(DateMark, MessageMark);
    SameLengthContains(DateMark, CallerMark);
  }

  /**
   * With `%i` in the template, the caller pass runs over the message too:
   * `%i %m` prints the tag, a space and the message with each of its `%i`
   * replaced by the tag, for any message.
   */
  lemma CallerReachesMessage(message: string, caller: string, datetime: string, date: string)
    ensures Parse(CallerMark + " " + MessageMark, message, caller, datetime, date)
         == caller + " " + ReplaceAll(message, CallerMark, caller)
  {
    var format := CallerMark + " " + MessageMark;
    CallerTemplateGates(format);
    assert ExpandDates(format, datetime, date) == format;
    MessageIntoCallerTemplate(format, message);
    CallerPassOverMessage(message, caller);
  }

  /** Which passes the template `%i %m` switches on. */
  lemma CallerTemplateGates(format: string)
    requires format == CallerMark + " " + MessageMark
    ensures !Contains(format, DateTimeMark) && !Contains(format, DateMark)
    ensures Contains(format, MessageMark) && Contains(format, CallerMark)
  {
    ContainsChar(format, DateMark, 1);
    PrefixContained(format, DateTimeMark, 2);
    assert DateTimeMark[..2] == DateMark;
    ContainedInSuffix(CallerMark + " ", MessageMark, MessageMark);
    assert StartsWith(format, CallerMark);
  }

  /** The message pass on `%i %m`. */
  lemma MessageIntoCallerTemplate(format: string, message: string)
    requires format == CallerMark + " " + MessageMark
    ensures ReplaceAll(format, MessageMark, message) == CallerMark + (" " + message)
  {
    var head := CallerMark + " ";
    ContainsChar(head, MessageMark, 1);
    StraddleOfTwo(head, MessageMark, MessageMark);
    ReplaceAllAppend(head, MessageMark, MessageMark, message);
    assert ReplaceAll(MessageMark, MessageMark, message) == message;
  }

  /** The caller pass on `%i` followed by a space and the message. */
  lemma CallerPassOverMessage(message: string, caller: string)
    ensures ReplaceAll(CallerMark + (" " + message), CallerMark, caller)
         == caller + " " + ReplaceAll(message, CallerMark, caller)
  {
    StraddleOfTwo(CallerMark, " " + message, CallerMark);
    ReplaceAllAppend(CallerMark, " " + message, CallerMark, caller);
    assert ReplaceAll(CallerMark, CallerMark, caller) == caller;
    CallerPassAfterSpace(message, caller);
  }

  /** The caller pass on a space followed by the message leaves the space alone. */
  lemma CallerPassAfterSpace(message: string, caller: string)
    ensures ReplaceAll(" " + message, CallerMark, caller) == " " + ReplaceAll(message, CallerMark, caller)
  {
    StraddleOfTwo(" ", message, CallerMark);
    ReplaceAllAppend(" ", message, CallerMark, caller);
    ShortNotContained(" ", CallerMark);
  }
}
