/**
 * A format template read once, left to right, as a sequence of tokens:
 * the four placeholders `%dt`, `%d`, `%m`, `%i` and literal characters.
 * This reading is the reference against which the logger's pass-by-pass
 * substitution is proved.
 */
module Template {
  import opened Text

  const DateTimeMark: string := "%dt"
  const DateMark: string := "%d"
  const MessageMark: string := "%m"
  const CallerMark: string := "%i"

  /** One lexical unit of a format template. */
  datatype Token =
    | Lit(c: char)   // a character copied through unchanged
    | DateTimeTok    // `%dt`
    | DateTok        // `%d`
    | MessageTok     // `%m`
    | CallerTok      // `%i`

  /** The text a token stands for, given the four substitution texts. */
  function Value(tok: Token, message: string, caller: string, datetime: string, date: string): string {
    match tok
    case Lit(c) => [c]
    case DateTimeTok => datetime
    case DateTok => date
    case MessageTok => message
    case CallerTok => caller
  }

  /** The tokens' texts, concatenated in order. */
  function Fill(toks: seq<Token>, message: string, caller: string, datetime: string, date: string): string
    decreases |toks|
  {
    if |toks| == 0 then []
    else Value(toks[0], message, caller, datetime, date) + Fill(toks[1..], message, caller, datetime, date)
  }

  /** The template text a token sequence was read from: each placeholder stands for itself. */
  function Unparse(toks: seq<Token>): string {
    Fill(toks, MessageMark, CallerMark, DateTimeMark, DateMark)
  }

  /**
   * Adjacent tokens that a left-to-right reading can produce: a literal `%`
   * is never followed by a literal `d`, `m` or `i` (the pair would have
   * been read as a placeholder), and `%d` is never followed by a literal
   * `t` (the three would have been read as `%dt`).
   */
  predicate CanFollow(x: Token, y: Token) {
    && !(x == Lit('%') && y.Lit? && y.c in "dmi")
    && !(x == DateTok && y == Lit('t'))
  }

  predicate WellFormed(toks: seq<Token>)
    decreases |toks|
  {
    |toks| < 2 || (CanFollow(toks[0], toks[1]) && WellFormed(toks[1..]))
  }

  /** The template text of a single token: each placeholder stands for itself. */
  function MarkText(tok: Token): string {
    Value(tok, MessageMark, CallerMark, DateTimeMark, DateMark)
  }

  /**
   * The token at the start of a non-empty template and its length. `%dt`
   * is tried before `%d`, so a date-time placeholder is never read as a
   * date placeholder followed by a literal `t`.
   */
  function Lead(t: string): (r: (Token, nat))
    requires |t| > 0
    ensures 0 < r.1 <= |t| && t[..r.1] == MarkText(r.0)
    ensures r.0 == Lit('%') && |t| > 1 ==> t[1] !in "dmi"
    ensures r.0 == DateTok && |t| > 2 ==> t[2] != 't'
  {
    if t[0] == '%' && |t| >= 2 && t[1] == 'd' then
      if |t| >= 3 && t[2] == 't' then
        assert t[..3] == DateTimeMark;
        (DateTimeTok, 3)
      else
        assert t[..2] == DateMark;
        (DateTok, 2)
    else if t[0] == '%' && |t| >= 2 && t[1] == 'm' then
      assert t[..2] == MessageMark;
      (MessageTok, 2)
    else if t[0] == '%' && |t| >= 2 && t[1] == 'i' then
      assert t[..2] == CallerMark;
      (CallerTok, 2)
    else
      (Lit(t[0]), 1)
  }

  /** Reads a whole template left to right, one leading token at a time. */
  function Tokenize(t: string): seq<Token>
    decreases |t|
  {
    if |t| == 0 then []
    else
      var lead := Lead(t);
      [lead.0] + Tokenize(t[lead.1..])
  }

  /** Filling a sequence with a token in front puts that token's text in front. */
  lemma FillCons(tok: Token, toks: seq<Token>, message: string, caller: string, datetime: string, date: string)
    ensures Fill([tok] + toks, message, caller, datetime, date)
         == Value(tok, message, caller, datetime, date) + Fill(toks, message, caller, datetime, date)
  {
    assert ([tok] + toks)[1..] == toks;
  }

  /** Reading a template and writing its tokens back gives the template. */
  lemma {:induction false} UnparseTokenize(t: string)
    ensures Unparse(Tokenize(t)) == t
    decreases |t|
  {
    if |t| > 0 {
      var lead := Lead(t);
      var rest := t[lead.1..];
      LeadSplit(t);
      UnparseTokenize(rest);
      FillCons(lead.0, Tokenize(rest), MessageMark, CallerMark, DateTimeMark, DateMark);
    }
  }

  /** A non-empty template is its leading token's text followed by the rest, read on from there. */
  lemma LeadSplit(t: string)
    requires |t| > 0
    ensures t == MarkText(Lead(t).0) + t[Lead(t).1..]
    ensures Tokenize(t) == [Lead(t).0] + Tokenize(t[Lead(t).1..])
  {
    var r := Lead(t);
    LeadText(t, r.0, r.1);
  }

  lemma LeadText(t: string, tok: Token, n: nat)
    requires n <= |t| && t[..n] == MarkText(tok)
    ensures t == MarkText(tok) + t[n..]
  {
    assert t == t[..n] + t[n..];
  }

  /** Every token sequence read from a template is well-formed. */
  lemma {:induction false} TokenizeWellFormed(t: string)
    ensures WellFormed(Tokenize(t))
    decreases |t|
  {
    if |t| > 0 {
      var lead := Lead(t);
      var rest := Tokenize(t[lead.1..]);
      TokenizeWellFormed(t[lead.1..]);
      assert ([lead.0] + rest)[1..] == rest;
      if |rest| > 0 {
        UnparseTokenize(t[lead.1..]);
        FillHead(rest, MessageMark, CallerMark, DateTimeMark, DateMark);
        assert MarkText(rest[0])[0] == t[lead.1];
        assert CanFollow(lead.0, rest[0]);
      }
    }
  }

  /** Reading the text of a well-formed token sequence gives back exactly that sequence. */
  lemma {:induction false} TokenizeUnparse(toks: seq<Token>)
    requires WellFormed(toks)
    ensures Tokenize(Unparse(toks)) == toks
    decreases |toks|
  {
    if |toks| > 0 {
      var tok, rest := toks[0], toks[1..];
      var r := Unparse(rest);
      assert toks == [tok] + rest;
      FillCons(tok, rest, MessageMark, CallerMark, DateTimeMark, DateMark);
      TokenizeUnparse(rest);
      FollowedBy(tok, rest);
      ReadsToken(tok, r);
    }
  }

  /** The text after a token that may follow it does not extend that token's text into a longer one. */
  lemma FollowedBy(tok: Token, rest: seq<Token>)
    requires |rest| > 0 ==> CanFollow(tok, rest[0])
    ensures var r := Unparse(rest);
      && (tok == Lit('%') ==> |r| == 0 || r[0] !in "dmi")
      && (tok == DateTok ==> |r| == 0 || r[0] != 't')
  {
    if |rest| > 0 {
      FillHead(rest, MessageMark, CallerMark, DateTimeMark, DateMark);
      assert Unparse(rest)[0] == MarkText(rest[0])[0];
    }
  }

  /** A token's text at the front of a template is read as that token, unless the next character extends it. */
  lemma ReadsToken(tok: Token, r: string)
    requires tok == Lit('%') ==> |r| == 0 || r[0] !in "dmi"
    requires tok == DateTok ==> |r| == 0 || r[0] != 't'
    ensures Tokenize(MarkText(tok) + r) == [tok] + Tokenize(r)
  {
    var u := MarkText(tok) + r;
    LeadOf(tok, r);
    assert u[|MarkText(tok)|..] == r;
  }

  lemma LeadOf(tok: Token, r: string)
    requires tok == Lit('%') ==> |r| == 0 || r[0] !in "dmi"
    requires tok == DateTok ==> |r| == 0 || r[0] != 't'
    ensures Lead(MarkText(tok) + r) == (tok, |MarkText(tok)|)
  {
    var u := MarkText(tok) + r;
    var n := |MarkText(tok)|;
    if |r| > 0 {
      assert u[n] == r[0];
    }
    match tok
    case Lit(ch) =>
      assert u[0] == ch;
    case DateTimeTok =>
      assert u[..3] == DateTimeMark;
    case DateTok =>
      assert u[..2] == DateMark;
    case MessageTok =>
      assert u[..2] == MessageMark && u[1] == 'm';
    case CallerTok =>
      assert u[..2] == CallerMark && u[1] == 'i';
  }

  /** The first character of a filled sequence is the first character of its first token's text. */
  lemma FillHead(toks: seq<Token>, message: string, caller: string, datetime: string, date: string)
    requires |toks| > 0 && |Value(toks[0], message, caller, datetime, date)| > 0
    ensures |Fill(toks, message, caller, datetime, date)| > 0
    ensures Fill(toks, message, caller, datetime, date)[0] == Value(toks[0], message, caller, datetime, date)[0]
  {
  }

  /** A substitution text matters only if a token of its kind is present. */
  lemma {:induction false} FillAgrees(toks: seq<Token>,
                                      m1: string, c1: string, t1: string, d1: string,
                                      m2: string, c2: string, t2: string, d2: string)
    requires MessageTok in toks ==> m1 == m2
    requires CallerTok in toks ==> c1 == c2
    requires DateTimeTok in toks ==> t1 == t2
    requires DateTok in toks ==> d1 == d2
    ensures Fill(toks, m1, c1, t1, d1) == Fill(toks, m2, c2, t2, d2)
    decreases |toks|
  {
    if |toks| > 0 {
      var tok, rest := toks[0], toks[1..];
      assert tok in toks;
      assert forall k :: k in rest ==> k in toks;
      FillAgrees(rest, m1, c1, t1, d1, m2, c2, t2, d2);
      ValueAgrees(tok, m1, c1, t1, d1, m2, c2, t2, d2);
    }
  }

  lemma ValueAgrees(tok: Token, m1: string, c1: string, t1: string, d1: string,
                    m2: string, c2: string, t2: string, d2: string)
    requires tok == MessageTok ==> m1 == m2
    requires tok == CallerTok ==> c1 == c2
    requires tok == DateTimeTok ==> t1 == t2
    requires tok == DateTok ==> d1 == d2
    ensures Value(tok, m1, c1, t1, d1) == Value(tok, m2, c2, t2, d2)
  {
  }

  /** The text of every token present can be found in the filled text. */
  lemma {:induction false} TokenShows(toks: seq<Token>, tok: Token,
                                      message: string, caller: string, datetime: string, date: string)
    ensures tok in toks ==>
      Contains(Fill(toks, message, caller, datetime, date), Value(tok, message, caller, datetime, date))
    decreases |toks|
  {
    if tok in toks {
      var v := Value(tok, message, caller, datetime, date);
      var head := Value(toks[0], message, caller, datetime, date);
      var f := Fill(toks, message, caller, datetime, date);
      if toks[0] == tok {
        assert f[..|v|] == v;
        OccursAtContains(f, v, 0);
      } else {
        assert tok in toks[1..];
        TokenShows(toks[1..], tok, message, caller, datetime, date);
        ContainedInSuffix(head, Fill(toks[1..], message, caller, datetime, date), v);
      }
    }
  }

  /** A template in which `%i` can be found is read with at least one caller token. */
  lemma {:induction false} CallerMarkRead(t: string)
    ensures Contains(t, CallerMark) ==> CallerTok in Tokenize(t)
    decreases |t|
  {
    if |t| > 0 {
      var lead := Lead(t);
      var rest := t[lead.1..];
      assert Tokenize(t) == [lead.0] + Tokenize(rest);
      CallerMarkRead(rest);
      if lead.0 != CallerTok {
        MarkTextTail(lead.0);
        assert forall j :: 0 < j < lead.1 ==> t[j] == t[..lead.1][j];
        ContainsSkip(t, CallerMark, lead.1);
      }
    }
  }

  /** Only the first character of a token's template text can be `%`, and `%i` is the caller token's alone. */
  lemma MarkTextTail(tok: Token)
    ensures forall j :: 0 < j < |MarkText(tok)| ==> MarkText(tok)[j] != '%'
    ensures tok != CallerTok ==> !StartsWith(MarkText(tok), CallerMark)
  {
    match tok
    case Lit(_) =>
    case DateTimeTok => assert MarkText(tok)[1] == 'd';
    case DateTok => assert MarkText(tok)[1] == 'd';
    case MessageTok => assert MarkText(tok)[1] == 'm';
    case CallerTok =>
  }

  /**
   * No occurrence of `pat` straddles the seam between a token's text and
   * the text of the tokens after it.
   */
  predicate Separated(toks: seq<Token>, message: string, caller: string, datetime: string, date: string,
                      pat: string)
    decreases |toks|
  {
    || |toks| == 0
    || (&& !Straddles(Value(toks[0], message, caller, datetime, date),
                      Fill(toks[1..], message, caller, datetime, date), pat)
        && Separated(toks[1..], message, caller, datetime, date, pat))
  }

  /**
   * One replace-all pass over a filled sequence acts token by token: it
   * rewrites each substitution text and leaves every literal character
   * alone, provided no occurrence straddles two tokens.
   */
  lemma {:induction false} FillReplace(toks: seq<Token>, message: string, caller: string, datetime: string,
                                       date: string, pat: string, rep: string)
    requires |pat| >= 2
    requires Separated(toks, message, caller, datetime, date, pat)
    ensures ReplaceAll(Fill(toks, message, caller, datetime, date), pat, rep)
         == Fill(toks, ReplaceAll(message, pat, rep), ReplaceAll(caller, pat, rep),
                 ReplaceAll(datetime, pat, rep), ReplaceAll(date, pat, rep))
    decreases |toks|
  {
    if |toks| > 0 {
      var head := Value(toks[0], message, caller, datetime, date);
      var tail := Fill(toks[1..], message, caller, datetime, date);
      assert Fill(toks, message, caller, datetime, date) == head + tail;
      ReplaceAllAppend(head, tail, pat, rep);
      FillReplace(toks[1..], message, caller, datetime, date, pat, rep);
      ValueReplace(toks[0], message, caller, datetime, date, pat, rep);
    }
  }

  /** A pass rewrites a token's substitution text and leaves a literal character alone. */
  lemma ValueReplace(tok: Token, message: string, caller: string, datetime: string, date: string,
                     pat: string, rep: string)
    requires |pat| >= 2
    ensures ReplaceAll(Value(tok, message, caller, datetime, date), pat, rep)
         == Value(tok, ReplaceAll(message, pat, rep), ReplaceAll(caller, pat, rep),
                  ReplaceAll(datetime, pat, rep), ReplaceAll(date, pat, rep))
  {
    if tok.Lit? {
      ShortNotContained([tok.c], pat);
    }
  }

  /**
   * A substitution text that cannot begin a two-character placeholder
   * `%x` with what precedes it, nor complete one with what follows.
   */
  predicate Plain(v: string, x: char) {
    |v| > 0 && v[0] != x && v[|v| - 1] != '%'
  }

  /**
   * For a placeholder `%x` other than `%dt`, no occurrence straddles two
   * tokens of a well-formed sequence whose substitution texts are plain.
   */
  lemma {:induction false} SeparatedForMark(toks: seq<Token>, message: string, caller: string,
                                            datetime: string, date: string, x: char)
    requires WellFormed(toks) && x in "dmi"
    requires Plain(message, x) && Plain(caller, x) && Plain(datetime, x) && Plain(date, x)
    ensures Separated(toks, message, caller, datetime, date, ['%', x])
    decreases |toks|
  {
    if |toks| > 0 {
      var a := Value(toks[0], message, caller, datetime, date);
      var b := Fill(toks[1..], message, caller, datetime, date);
      StraddleOfTwo(a, b, ['%', x]);
      if |toks| > 1 {
        SeparatedForMark(toks[1..], message, caller, datetime, date, x);
        FillHead(toks[1..], message, caller, datetime, date);
        assert CanFollow(toks[0], toks[1]);
        assert !(a[|a| - 1] == '%' && b[0] == x);
      }
    }
  }

  /**
   * Before any substitution, no `%dt` straddles two tokens: the only
   * candidates, a literal `%` before a literal `d` and `%d` before a
   * literal `t`, are what well-formedness rules out.
   */
  lemma {:induction false} SeparatedForDateTime(toks: seq<Token>)
    requires WellFormed(toks)
    ensures Separated(toks, MessageMark, CallerMark, DateTimeMark, DateMark, DateTimeMark)
    decreases |toks|
  {
    if |toks| > 0 {
      var a := Value(toks[0], MessageMark, CallerMark, DateTimeMark, DateMark);
      var b := Unparse(toks[1..]);
      StraddleOfThree(a, b, DateTimeMark);
      if |toks| > 1 {
        SeparatedForDateTime(toks[1..]);
        FillHead(toks[1..], MessageMark, CallerMark, DateTimeMark, DateMark);
        assert CanFollow(toks[0], toks[1]);
        assert !(a[|a| - 1] == '%' && b[0] == 'd');
        assert !(|a| >= 2 && a[|a| - 2] == '%' && a[|a| - 1] == 'd' && b[0] == 't');
      }
    }
  }

  /**
   * A filled sequence contains a placeholder only if a substitution text
   * does, or an occurrence straddles two tokens.
   */
  lemma {:induction false} FillWithoutMark(toks: seq<Token>, message: string, caller: string,
                                           datetime: string, date: string, pat: string)
    requires |pat| >= 2 && Separated(toks, message, caller, datetime, date, pat)
    requires !Contains(message, pat) && !Contains(caller, pat)
    requires !Contains(datetime, pat) && !Contains(date, pat)
    ensures !Contains(Fill(toks, message, caller, datetime, date), pat)
    decreases |toks|
  {
    if |toks| == 0 {
      ShortNotContained([], pat);
    } else {
      var a := Value(toks[0], message, caller, datetime, date);
      var b := Fill(toks[1..], message, caller, datetime, date);
      ContainsSplit(a, b, pat);
      FillWithoutMark(toks[1..], message, caller, datetime, date, pat);
      if toks[0].Lit? {
        ShortNotContained(a, pat);
      }
    }
  }

  /** A run of literal characters. */
  function Lits(s: string): (toks: seq<Token>)
    ensures |toks| == |s| && forall k :: 0 <= k < |s| ==> toks[k] == Lit(s[k])
    decreases |s|
  {
    if |s| == 0 then [] else [Lit(s[0])] + Lits(s[1..])
  }

  /** Literal characters fill in as themselves, whatever the substitution texts. */
  lemma {:induction false} FillLits(s: string, message: string, caller: string, datetime: string, date: string)
    ensures Fill(Lits(s), message, caller, datetime, date) == s
    decreases |s|
  {
    if |s| > 0 {
      FillLits(s[1..], message, caller, datetime, date);
      FillCons(Lit(s[0]), Lits(s[1..]), message, caller, datetime, date);
      assert s == [s[0]] + s[1..];
    }
  }

  /** Filling a concatenation fills each part. */
  lemma {:induction false} FillAppend(a: seq<Token>, b: seq<Token>,
                                      message: string, caller: string, datetime: string, date: string)
    ensures Fill(a + b, message, caller, datetime, date)
         == Fill(a, message, caller, datetime, date) + Fill(b, message, caller, datetime, date)
    decreases |a|
  {
    if |a| > 0 {
      assert (a + b)[0] == a[0] && (a + b)[1..] == a[1..] + b;
      FillAppend(a[1..], b, message, caller, datetime, date);
    } else {
      assert a + b == b;
    }
  }

  /** A concatenation is well-formed when both parts are and the seam is. */
  lemma {:induction false} WellFormedAppend(a: seq<Token>, b: seq<Token>)
    requires WellFormed(a) && WellFormed(b)
    requires |a| > 0 && |b| > 0 ==> CanFollow(a[|a| - 1], b[0])
    ensures WellFormed(a + b)
    decreases |a|
  {
    if |a| > 0 {
      var ab := a + b;
      assert ab[1..] == a[1..] + b;
      WellFormedAppend(a[1..], b);
      if |ab| >= 2 {
        if |a| == 1 {
          assert ab[0] == a[0] && ab[1] == b[0];
        } else {
          assert ab[0] == a[0] && ab[1] == a[1];
        }
      }
    } else {
      assert a + b == b;
    }
  }

  /** A run of literals without `%` is well-formed. */
  lemma {:induction false} LitsWellFormed(s: string)
    requires '%' !in s
    ensures WellFormed(Lits(s))
    decreases |s|
  {
    if |s| > 0 {
      assert Lits(s)[1..] == Lits(s[1..]);
      LitsWellFormed(s[1..]);
    }
  }

  /**
   * The reference reading of a template: one left-to-right pass in which
   * every placeholder token is replaced by its text. The message is shown
   * with its own `%i` replaced by the caller tag exactly when the template
   * has a caller placeholder.
   */
  function Scan(format: string, message: string, caller: string, datetime: string, date: string): string {
    var toks := Tokenize(format);
    var shown := if CallerTok in toks then ReplaceAll(message, CallerMark, caller) else message;
    Fill(toks, shown, caller, datetime, date)
  }
}
