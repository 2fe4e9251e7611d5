/** Parsing a command line back into a kind, a verb and arguments. */
module RequestLines {
  import opened Wire
  import opened Text
  import opened Lines
  import opened Requests
  import P = Protocol
  import Capabilities

  const MAX_SASL_LINE: nat := 4096
  const MAX_COMMAND_LINE: nat := 512
  const MAX_ARGUMENT_BYTES: nat := 497

  datatype RequestLine = RequestLine(kind: P.RequestKind, verb: Bytes, args: Bytes)

  datatype CommandKind = Direct(kind: P.RequestKind) | ListCommand | AuthInfoCommand | ModeCommand

  // ----- splitting -----

  predicate IsAsciiWhitespace(b: byte) { b == SPACE || b == TAB || b == LF || b == 12 || b == CR }

  function StripEolWs(line: Bytes): (r: Bytes)
    ensures r <= line && (r != [] ==> !IsWs(r[|r| - 1]))
  {
    if line == [] then [] else if IsWs(line[|line| - 1]) then StripEolWs(line[..|line| - 1]) else line
  }

  predicate BadSpacing(line: Bytes) {
    || line == [] || IsWs(line[0])
    || exists i :: 0 <= i < |line| && IsAsciiWhitespace(line[i]) && !IsWs(line[i])
  }

  /** The blank-separated words, however many blanks there are. */
  function CommandTokens(s: Bytes): (r: seq<Bytes>)
    decreases |s|
  {
    if s == [] then []
    else if IsWs(s[0]) then CommandTokens(s[1..])
    else [s[..WsIndex(s)]] + CommandTokens(s[WsIndex(s)..])
  }

  // ----- classification -----

  const VERB_COUNT: nat := 26

  /** The verb table, in its order. */
  function VerbAt(i: nat): (entry: (string, CommandKind)) {
    match i
    case 0 => ("ARTICLE", Direct(P.RequestKind.Article))
    case 1 => ("AUTHINFO", AuthInfoCommand)
    case 2 => ("BODY", Direct(P.RequestKind.Body))
    case 3 => ("CAPABILITIES", Direct(P.RequestKind.Capabilities))
    case 4 => ("CHECK", Direct(P.RequestKind.Check))
    case 5 => ("DATE", Direct(P.RequestKind.Date))
    case 6 => ("GROUP", Direct(P.RequestKind.Group))
    case 7 => ("HDR", Direct(P.RequestKind.Hdr))
    case 8 => ("HEAD", Direct(P.RequestKind.Head))
    case 9 => ("HELP", Direct(P.RequestKind.Help))
    case 10 => ("IHAVE", Direct(P.RequestKind.Ihave))
    case 11 => ("LAST", Direct(P.RequestKind.Last))
    case 12 => ("LIST", ListCommand)
    case 13 => ("LISTGROUP", Direct(P.RequestKind.ListGroup))
    case 14 => ("MODE", ModeCommand)
    case 15 => ("NEWGROUPS", Direct(P.RequestKind.NewGroups))
    case 16 => ("NEWNEWS", Direct(P.RequestKind.NewNews))
    case 17 => ("NEXT", Direct(P.RequestKind.Next))
    case 18 => ("OVER", Direct(P.RequestKind.Over))
    case 19 => ("POST", Direct(P.RequestKind.Post))
    case 20 => ("QUIT", Direct(P.RequestKind.Quit))
    case 21 => ("STARTTLS", Direct(P.RequestKind.StartTls))
    case 22 => ("STAT", Direct(P.RequestKind.Stat))
    case 23 => ("TAKETHIS", Direct(P.RequestKind.TakeThis))
    case 24 => ("XHDR", Direct(P.RequestKind.Xhdr))
    case _ => ("XOVER", Direct(P.RequestKind.Xover))
  }

  /** The first entry at or after `from` that matches without regard to case. */
  function FindVerb(verb: Bytes, from: nat): (r: Option<CommandKind>)
    decreases VERB_COUNT - from
  {
    if from >= VERB_COUNT then None
    else if EqIgnoreCase(verb, Ascii(VerbAt(from).0)) then Some(VerbAt(from).1)
    else FindVerb(verb, from + 1)
  }

  /** Digits are an article number, anything else a message-id. */
  predicate ValidFetchSelector(args: Bytes) {
    if AllDigits(args) then ArticleNumberToken(args).Some? else ValidMessageId(args)
  }

  predicate ValidDateTime(tokens: seq<Bytes>) {
    && 2 <= |tokens| <= 3 && ValidDate(tokens[0]) && ValidTime(tokens[1])
    && (|tokens| == 3 ==> EqIgnoreCase(tokens[2], Ascii("GMT")))
  }

  /** Whether the arguments suit a direct command. */
  predicate SuitsDirect(kind: P.RequestKind, args: Bytes) {
    var tokens := CommandTokens(args);
    match kind
    case Article | Body | Head | Stat => args == [] || ValidFetchSelector(args)
    case Group => ValidGroupName(args)
    case ListGroup =>
      || args == []
      || (|tokens| == 1 && ValidGroupName(tokens[0]))
      || (|tokens| == 2 && ValidGroupName(tokens[0]) && ValidRange(tokens[1]))
    case Over => args == [] || ValidSelector(args)
    case Xover => args == [] || ValidRange(args)
    case Hdr | Xhdr =>
      || (|tokens| == 1 && ValidHeaderName(tokens[0]))
      || (|tokens| == 2 && ValidHeaderName(tokens[0]) && ValidSelector(tokens[1]))
    case Ihave | Check | TakeThis => ValidMessageId(args)
    case NewGroups => ValidDateTime(tokens)
    case NewNews => |tokens| >= 1 && ValidWildmat(tokens[0]) && ValidDateTime(tokens[1..])
    case Capabilities => args == [] || (|tokens| == 1 && ValidKeyword(tokens[0]))
    case Date | Help | Last | Next | Post | Quit | StartTls => args == []
    case _ => true
  }

  function FindList(word: Bytes): (r: Option<ListKind>) {
    if EqIgnoreCase(word, Ascii("ACTIVE")) then Some(Active)
    else if EqIgnoreCase(word, Ascii("ACTIVE.TIMES")) then Some(ActiveTimes)
    else if EqIgnoreCase(word, Ascii("NEWSGROUPS")) then Some(Newsgroups)
    else if EqIgnoreCase(word, Ascii("OVERVIEW.FMT")) then Some(OverviewFmt)
    else if EqIgnoreCase(word, Ascii("HEADERS")) then Some(Headers)
    else if EqIgnoreCase(word, Ascii("DISTRIB.PATS")) then Some(DistribPats)
    else None
  }

  predicate SuitsList(list: ListKind, rest: seq<Bytes>) {
    match list
    case Active | ActiveTimes | Newsgroups => rest == [] || (|rest| == 1 && ValidWildmat(rest[0]))
    case Headers => rest == [] || (|rest| == 1 && (EqIgnoreCase(rest[0], Ascii("MSGID")) || EqIgnoreCase(rest[0], Ascii("RANGE"))))
    case OverviewFmt | DistribPats => rest == []
  }

  function ClassifyList(args: Bytes): (kind: P.RequestKind) {
    var tokens := CommandTokens(args);
    if tokens == [] then P.RequestKind.List
    else
      match FindList(tokens[0])
      case None => P.RequestKind.Unknown
      case Some(list) => if SuitsList(list, tokens[1..]) then KindOfList(list) else P.RequestKind.Unknown
  }

  predicate IsSasl(tokens: seq<Bytes>) {
    && 2 <= |tokens| <= 3 && EqIgnoreCase(tokens[0], Ascii("SASL")) && Capabilities.ValidMechanism(tokens[1])
    && (|tokens| == 3 ==> tokens[2] == [61] || P.ValidBase64(tokens[2]))
  }

  function ClassifyAuthInfo(args: Bytes): (kind: P.RequestKind) {
    var split := WsIndex(args);
    var word, value := args[..split], SkipWs(args[split..]);
    if word != [] && value != [] && EqIgnoreCase(word, Ascii("USER")) && ValidAuthValue(value) then P.RequestKind.AuthInfoUser
    else if word != [] && value != [] && EqIgnoreCase(word, Ascii("PASS")) && ValidAuthValue(value) then P.RequestKind.AuthInfoPass
    else if IsSasl(CommandTokens(args)) then P.RequestKind.AuthInfo
    else P.RequestKind.Unknown
  }

  function Classify(verb: Bytes, args: Bytes): (kind: P.RequestKind) {
    match FindVerb(verb, 0)
    case None => P.RequestKind.Unknown
    case Some(Direct(kind)) => if SuitsDirect(kind, args) then kind else P.RequestKind.Unknown
    case Some(ListCommand) => ClassifyList(args)
    case Some(AuthInfoCommand) => ClassifyAuthInfo(args)
    case Some(ModeCommand) =>
      if EqIgnoreCase(args, Ascii("READER")) then P.RequestKind.ModeReader
      else if EqIgnoreCase(args, Ascii("STREAM")) then P.RequestKind.ModeStream
      else P.RequestKind.Unknown
  }

  function ParseContent(content: Bytes, raw: nat): (r: RequestLine) {
    var line := StripEolWs(content);
    if BadSpacing(line) then RequestLine(P.RequestKind.Unknown, line, [])
    else
      var split := WsIndex(line);
      var verb, args := line[..split], SkipWs(line[split..]);
      var kind := Classify(verb, args);
      if (raw > MAX_COMMAND_LINE || |args| > MAX_ARGUMENT_BYTES) && kind != P.RequestKind.AuthInfo
      then RequestLine(P.RequestKind.Unknown, verb, args)
      else RequestLine(kind, verb, args)
  }

  function Parse(line: Bytes): (r: RequestLine) {
    if |line| > MAX_SASL_LINE then RequestLine(P.RequestKind.Unknown, line, [])
    else
      match StripCompleteCrlfLine(line)
      case None => RequestLine(P.RequestKind.Unknown, line, [])
      case Some(content) => ParseContent(content, |line|)
  }

  // ----- the table has no two entries alike -----

  function Letter(w: string, i: nat): (n: nat) { if i < |w| then w[i] as int else 0 }

  /** The first four letters, then the length; the table is in this order. */
  function Key(w: string): (n: nat) {
    (((Letter(w, 0) * 256 + Letter(w, 1)) * 256 + Letter(w, 2)) * 256 + Letter(w, 3)) * 256 + |w|
  }

  predicate InOrder(i: nat) { Key(VerbAt(i).0) < Key(VerbAt(i + 1).0) }

  lemma OrderTo5(i: nat)
    requires 0 <= i < 5
    ensures InOrder(i)
  {
  }

  lemma OrderTo10(i: nat)
    requires 5 <= i < 10
    ensures InOrder(i)
  {
  }

  lemma OrderTo15(i: nat)
    requires 10 <= i < 15
    ensures InOrder(i)
  {
  }

  lemma OrderTo20(i: nat)
    requires 15 <= i < 20
    ensures InOrder(i)
  {
  }

  lemma OrderTo25(i: nat)
    requires 20 <= i < 25
    ensures InOrder(i)
  {
  }

  predicate UpperWord(w: string) { forall i | 0 <= i < |w| :: 'A' <= w[i] <= 'Z' }

  lemma UpperTo13(i: nat)
    requires i < 13
    ensures UpperWord(VerbAt(i).0)
  {
  }

  lemma UpperFrom13(i: nat)
    requires 13 <= i
    ensures UpperWord(VerbAt(i).0)
  {
  }

  lemma UpperAt(w: string, i: nat)
    requires UpperWord(w) && i < |w|
    ensures Upper(Ascii(w)[i]) as int == w[i] as int
  {
  }

  /** Upper-case words that match without regard to case are the same word. */
  lemma SameWord(a: string, b: string)
    requires UpperWord(a) && UpperWord(b) && EqIgnoreCase(Ascii(a), Ascii(b))
    ensures a == b
  {
    hide Ascii, UpperWord;
    forall i | 0 <= i < |a| ensures a[i] == b[i] {
      UpperAt(a, i);
      UpperAt(b, i);
      assert Upper(Ascii(a)[i]) == Upper(Ascii(b)[i]);
    }
  }

  lemma {:induction false} EntriesDiffer(i: nat, j: nat)
    requires i < j < VERB_COUNT
    ensures Key(VerbAt(i).0) < Key(VerbAt(j).0)
    decreases j - i
  {
    hide VerbAt, Key;
    var k := j - 1;
    if k < 5 { OrderTo5(k); } else if k < 10 { OrderTo10(k); } else if k < 15 { OrderTo15(k); }
    else if k < 20 { OrderTo20(k); } else { OrderTo25(k); }
    if i < k { EntriesDiffer(i, k); }
  }

  lemma UpperEntry(i: nat)
    ensures UpperWord(VerbAt(i).0)
  {
    hide VerbAt;
    if i < 13 { UpperTo13(i); } else { UpperFrom13(i); }
  }

  /** Two words that match a third without regard to case match each other. */
  lemma MatchEachOther(v: Bytes, a: Bytes, b: Bytes)
    requires EqIgnoreCase(v, a) && EqIgnoreCase(v, b)
    ensures EqIgnoreCase(a, b)
  {
    forall i | 0 <= i < |a| ensures Upper(a[i]) == Upper(b[i]) { assert Upper(v[i]) == Upper(a[i]); }
  }

  /** However it is spelled in upper and lower case, a verb of the table is found as its own
      entry. */
  lemma {:induction false} FindsEntry(verb: Bytes, i: nat, from: nat)
    requires from <= i < VERB_COUNT && EqIgnoreCase(verb, Ascii(VerbAt(i).0))
    ensures FindVerb(verb, from) == Some(VerbAt(i).1)
    decreases i - from
  {
    hide VerbAt, Key, UpperWord, EqIgnoreCase, Ascii;
    if from < i {
      EntriesDiffer(from, i);
      UpperEntry(from);
      UpperEntry(i);
      if EqIgnoreCase(verb, Ascii(VerbAt(from).0)) {
        MatchEachOther(verb, Ascii(VerbAt(i).0), Ascii(VerbAt(from).0));
        SameWord(VerbAt(i).0, VerbAt(from).0);
      }
      FindsEntry(verb, i, from + 1);
    }
  }

  lemma EqItself(a: Bytes)
    ensures EqIgnoreCase(a, a)
  {
  }

  // ----- splitting a printed line -----

  /** A word with no white space in it. */
  predicate Solid(s: Bytes) { s != [] && forall i | 0 <= i < |s| :: !IsAsciiWhitespace(s[i]) }

  predicate AllSolid(args: seq<Bytes>) { forall i | 0 <= i < |args| :: Solid(args[i]) }

  /** The arguments as the parser should return them. */
  function Joined(args: seq<Bytes>): (r: Bytes) { if args == [] then [] else args[0] + Spaced(args[1..]) }

  lemma WsIndexIs(s: Bytes, n: nat)
    requires n <= |s| && (forall i | 0 <= i < n :: !IsWs(s[i])) && (n < |s| ==> IsWs(s[n]))
    ensures WsIndex(s) == n
  {
  }

  lemma {:induction false} SpacedStarts(args: seq<Bytes>)
    ensures args != [] ==> Spaced(args) == SP + Joined(args)
    ensures AllSolid(args) && args != [] ==> Spaced(args)[0] == SPACE && Joined(args) != [] && !IsWs(Joined(args)[0])
  {
    if args != [] { Assoc(SP, args[0], Spaced(args[1..])); }
  }

  lemma TokensAfterBlank(s: Bytes)
    ensures CommandTokens(SP + s) == CommandTokens(s)
  {
    hide WsIndex;
    assert (SP + s)[1..] == s;
  }

  lemma TokensAfterWord(word: Bytes, rest: Bytes)
    requires Solid(word) && (rest != [] ==> IsWs(rest[0]))
    ensures CommandTokens(word + rest) == [word] + CommandTokens(rest)
  {
    hide WsIndex;
    var s := word + rest;
    assert s[0] == word[0];
    assert forall i | 0 <= i < |word| :: s[i] == word[i];
    WsIndexIs(s, |word|);
    assert s[..|word|] == word && s[|word|..] == rest;
  }

  lemma NoTokens()
    ensures CommandTokens([]) == []
  {
  }

  /** The words of a joined line are the words it was joined from. */
  lemma {:induction false} TokensOfJoined(args: seq<Bytes>)
    requires AllSolid(args)
    ensures CommandTokens(Joined(args)) == args && CommandTokens(Spaced(args)) == args
    decreases |args|
  {
    hide CommandTokens, Spaced, Solid;
    if args == [] {
      SpacedNone();
      NoTokens();
    } else {
      TokensOfJoined(args[1..]);
      SpacedStarts(args);
      SpacedStarts(args[1..]);
      if args[1..] == [] { SpacedNone(); }
      TokensAfterWord(args[0], Spaced(args[1..]));
      TokensAfterBlank(Joined(args));
    }
  }

  lemma {:induction false} SpacedBytes(args: seq<Bytes>)
    requires AllSolid(args)
    ensures var s := Spaced(args); forall i | 0 <= i < |s| :: s[i] == SPACE || !IsAsciiWhitespace(s[i])
    ensures args != [] ==> Spaced(args) != [] && !IsWs(Spaced(args)[|Spaced(args)| - 1])
  {
    if args != [] {
      SpacedBytes(args[1..]);
      assert Spaced(args) == SP + args[0] + Spaced(args[1..]);
    }
  }

  /** Bytes that are spaces or no white space at all, from a word to a word. */
  lemma WellSpaced(content: Bytes)
    requires content != [] && !IsWs(content[0]) && !IsWs(content[|content| - 1])
    requires forall i | 0 <= i < |content| :: content[i] == SPACE || !IsAsciiWhitespace(content[i])
    ensures Unbroken(content) && StripEolWs(content) == content && !BadSpacing(content)
  {
  }

  lemma PrintedBytes(verb: Bytes, args: seq<Bytes>)
    requires Solid(verb) && AllSolid(args)
    ensures var content := verb + Spaced(args);
            && content != [] && !IsWs(content[0]) && !IsWs(content[|content| - 1])
            && forall i | 0 <= i < |content| :: content[i] == SPACE || !IsAsciiWhitespace(content[i])
  {
    hide Spaced;
    SpacedNone();
    SpacedBytes(args);
  }

  lemma SolidHasNoBlank(word: Bytes)
    requires Solid(word)
    ensures WsIndex(word) == |word| && word[..|word|] == word && SkipWs(word[|word|..]) == []
  {
    WsIndexIs(word, |word|);
  }

  lemma SkipOne(value: Bytes)
    ensures SkipWs(SP + value) == SkipWs(value)
  {
    assert (SP + value)[1..] == value;
  }

  /** The first word of a line ends at the first blank. */
  lemma WordEnds(word: Bytes, rest: Bytes)
    requires Solid(word) && rest != [] && IsWs(rest[0])
    ensures WsIndex(word + rest) == |word| && (word + rest)[..|word|] == word && (word + rest)[|word|..] == rest
  {
    WsIndexIs(word + rest, |word|);
  }

  lemma SolidStart(word: Bytes, s: Bytes)
    requires Solid(word) && word <= s
    ensures !IsWs(s[0]) && SkipWs(s) == s
  {
    assert s[0] == word[0];
  }

  /** A printed line comes apart into exactly its verb and its arguments. */
  lemma PrintedComesApart(verb: Bytes, args: seq<Bytes>)
    requires Solid(verb) && AllSolid(args)
    ensures var content := verb + Spaced(args);
            && Unbroken(content) && StripEolWs(content) == content && !BadSpacing(content)
            && WsIndex(content) == |verb| && content[..|verb|] == verb && SkipWs(content[|verb|..]) == Joined(args)
  {
    hide Spaced, Solid, StripEolWs, BadSpacing, Unbroken;
    var content := verb + Spaced(args);
    PrintedBytes(verb, args);
    WellSpaced(content);
    SpacedStarts(args);
    if args == [] {
      SpacedNone();
      assert content == verb;
      SolidHasNoBlank(verb);
    } else {
      WordEnds(verb, Spaced(args));
      SkipOne(Joined(args));
      assert Solid(args[0]);
      SolidStart(args[0], Joined(args));
    }
  }

  // ----- valid arguments have no white space -----

  lemma DigitsAreSolid(s: Bytes)
    requires s != [] && AllDigits(s)
    ensures Solid(s)
  {
  }

  lemma RangeIsSolid(s: Bytes)
    requires ValidRange(s)
    ensures Solid(s)
  {
    var dash := IndexOf(s, 45);
    if dash < |s| {
      assert forall i | 0 <= i < dash :: s[..dash][i] == s[i];
      assert forall i | dash < i < |s| :: s[dash + 1..][i - dash - 1] == s[i];
    }
  }

  lemma MessageIdIsSolid(s: Bytes)
    requires ValidMessageId(s)
    ensures Solid(s) && !AllDigits(s)
  {
    assert !IsDigit(s[0]);
  }

  lemma SelectorIsSolid(s: Bytes)
    requires ValidSelector(s)
    ensures Solid(s)
  {
    if s != [] && s[0] == 60 { MessageIdIsSolid(s); } else { RangeIsSolid(s); }
  }

  lemma HeaderIsSolid(s: Bytes)
    requires ValidHeaderName(s)
    ensures Solid(s)
  {
    if s[0] == 58 { assert forall i | 1 <= i < |s| :: s[1..][i - 1] == s[i]; }
  }

  /** The ASCII characters of UTF-8 text are its bytes below 0x80. */
  lemma {:induction false} AsciiChars(s: Bytes, i: nat)
    requires IsUtf8(s) && i < |s| && s[i] < 0x80
    ensures s[i] as nat in Chars(s).value
    decreases |s|
  {
    var (code, n) := FirstChar(s).value;
    if i >= n {
      AsciiChars(s[n..], i - n);
    }
  }

  lemma WildmatIsSolid(s: Bytes)
    requires ValidWildmat(s)
    ensures Solid(s)
  {
    hide Chars, SplitCommas;
    forall i | 0 <= i < |s| ensures !IsAsciiWhitespace(s[i]) {
      if s[i] < 0x80 { AsciiChars(s, i); }
    }
  }

  // ----- numbers -----

  /** A printed article number reads back as itself. */
  lemma NumberReadsBack(n: nat)
    requires 0 < n <= MAX_ARTICLE_NUMBER
    ensures ArticleNumberToken(Digits(n)) == Some(n) && ValidFetchSelector(Digits(n)) && Solid(Digits(n))
  {
    hide Digits, DecimalValue, Solid;
    DigitsReadBack(n);
    assert Power10(10) == 10000000000;
    DigitsAreFew(n, 10, n + 1);
    DigitsAreSolid(Digits(n));
  }

  // ----- a printed request is recognised -----

  /** The place of a request's verb in the table. */
  function VerbIndex(r: Request): (i: nat)
    ensures i < VERB_COUNT
  {
    match r
    case Article(_) => 0
    case AuthInfo(_, _) => 1
    case Body(_) => 2
    case Capabilities(_) => 3
    case Check(_) => 4
    case Date => 5
    case Group(_) => 6
    case Hdr(_, _) => 7
    case Head(_) => 8
    case Help => 9
    case Ihave(_) => 10
    case Last => 11
    case List => 12
    case ListVariant(_, _) => 12
    case ListGroup(_, _) => 13
    case ModeReader => 14
    case ModeStream => 14
    case NewGroups(_, _, _) => 15
    case NewNews(_, _, _, _) => 16
    case Next => 17
    case Over(_) => 18
    case Post => 19
    case Quit => 20
    case StartTls => 21
    case Stat(_) => 22
    case TakeThis(_, _) => 23
    case Xhdr(_, _) => 24
    case Xover(_) => 25
  }

  function CommandOf(r: Request): (c: CommandKind) {
    if r.List? || r.ListVariant? then ListCommand
    else if r.AuthInfo? then AuthInfoCommand
    else if r.ModeReader? || r.ModeStream? then ModeCommand
    else Direct(KindOf(r))
  }

  lemma VerbIsEntry(r: Request)
    ensures VerbOf(r) == Ascii(VerbAt(VerbIndex(r)).0) && VerbAt(VerbIndex(r)).1 == CommandOf(r)
  {
    hide Ascii;
  }

  lemma EntryIsLong(i: nat)
    ensures VerbAt(i).0 != ""
  {
  }

  lemma UpperIsSolid(w: string)
    requires UpperWord(w) && w != ""
    ensures Solid(Ascii(w))
  {
    forall i | 0 <= i < |w| ensures !IsAsciiWhitespace(Ascii(w)[i]) { assert 'A' <= w[i] <= 'Z'; }
  }

  lemma VerbIsFound(r: Request)
    ensures FindVerb(VerbOf(r), 0) == Some(CommandOf(r)) && Solid(VerbOf(r))
  {
    hide Ascii, VerbAt, VerbOf, FindVerb, CommandOf, Solid, VerbIndex;
    VerbIsEntry(r);
    EqItself(VerbOf(r));
    FindsEntry(VerbOf(r), VerbIndex(r), 0);
    UpperEntry(VerbIndex(r));
    EntryIsLong(VerbIndex(r));
    UpperIsSolid(VerbAt(VerbIndex(r)).0);
  }

  lemma LettersAreSolid(w: string)
    requires w != "" && forall i | 0 <= i < |w| :: 'A' <= w[i] <= 'Z' || w[i] == '.'
    ensures Solid(Ascii(w))
  {
  }

  lemma ListWordSolid(list: ListKind)
    ensures Solid(ListWord(list))
  {
    hide Ascii, Solid;
    match list
    case Active => LettersAreSolid("ACTIVE");
    case ActiveTimes => LettersAreSolid("ACTIVE.TIMES");
    case Newsgroups => LettersAreSolid("NEWSGROUPS");
    case OverviewFmt => LettersAreSolid("OVERVIEW.FMT");
    case Headers => LettersAreSolid("HEADERS");
    case DistribPats => LettersAreSolid("DISTRIB.PATS");
  }

  lemma ListWordFound(list: ListKind)
    ensures FindList(ListWord(list)) == Some(list)
  {
    var w := ListWord(list);
    EqItself(w);
    assert w[0] == match list case Active => 65 case ActiveTimes => 65 case Newsgroups => 78 case OverviewFmt => 79 case Headers => 72 case DistribPats => 68;
  }

  lemma ReaderSolid()
    ensures Solid(Ascii("READER")) && Solid(Ascii("STREAM")) && Solid(Ascii("GMT"))
  {
    UpperIsSolid("READER");
    UpperIsSolid("STREAM");
    UpperIsSolid("GMT");
  }

  lemma RefIsSolid(ref: ArticleRef)
    requires ValidRef(ref)
    ensures AllSolid(Arg(RefArg(ref)))
  {
    hide Solid, Digits;
    if ref.Number? { NumberReadsBack(ref.n); }
    if ref.Id? { MessageIdIsSolid(ref.id); }
  }

  lemma DateTimeSolid(date: Bytes, time: Bytes)
    requires ValidDate(date) && ValidTime(time)
    ensures Solid(date) && Solid(time)
  {
    DigitsAreSolid(date);
    DigitsAreSolid(time);
  }

  lemma OneIsSolid(a: Bytes)
    requires Solid(a)
    ensures AllSolid([a])
  {
    hide Solid;
  }

  lemma MoreSolid(args: seq<Bytes>, more: seq<Bytes>)
    requires AllSolid(args) && AllSolid(more)
    ensures AllSolid(args + more)
  {
    hide Solid;
  }

  lemma OptionalIsSolid(arg: Option<Bytes>)
    requires arg.Some? ==> Solid(arg.value)
    ensures AllSolid(Arg(arg))
  {
    hide Solid;
  }

  lemma NoneSolid()
    ensures AllSolid([])
  {
  }

  lemma GroupIsSolid(s: Bytes)
    requires ValidGroupName(s)
    ensures Solid(s)
  {
  }

  lemma ListGroupSolid(r: Request)
    requires Valid(r) && r.ListGroup?
    ensures AllSolid(ArgsOf(r))
  {
    hide Solid, ValidGroupName, ValidRange;
    if r.maybeGroup.Some? { GroupIsSolid(r.maybeGroup.value); }
    if r.range.Some? { RangeIsSolid(r.range.value); }
  }

  lemma HeaderArgsSolid(header: Bytes, selector: Option<Bytes>)
    requires ValidHeaderName(header) && Maybe(selector, ValidSelector)
    ensures AllSolid([header] + Arg(selector))
  {
    hide Solid, AllSolid, ValidHeaderName, ValidSelector;
    HeaderIsSolid(header);
    OneIsSolid(header);
    if selector.Some? { SelectorIsSolid(selector.value); }
    OptionalIsSolid(selector);
    MoreSolid([header], Arg(selector));
  }

  lemma DateArgsSolid(date: Bytes, time: Bytes, gmt: bool)
    requires ValidDate(date) && ValidTime(time)
    ensures AllSolid([date, time] + Gmt(gmt))
  {
    hide Solid, ValidDate, ValidTime, Ascii;
    DateTimeSolid(date, time);
    ReaderSolid();
  }

  lemma KeywordIsSolid(s: Bytes)
    requires ValidKeyword(s)
    ensures Solid(s)
  {
  }

  /** The arguments of a constructed request, other than AUTHINFO, have no white space. */
  lemma ArgsAreSolid(r: Request)
    requires Valid(r) && !r.AuthInfo?
    ensures AllSolid(ArgsOf(r))
  {
    hide AllSolid, Solid, Ascii, ListWord, ValidWildmat, ValidGroupName, ValidRange, ValidSelector, ValidHeaderName, ValidDate, ValidTime,
      ValidKeyword, ValidMessageId, ValidRef, RefArg, Arg, Gmt;
    match r
    case Article(ref) => RefIsSolid(ref);
    case Body(ref) => RefIsSolid(ref);
    case Head(ref) => RefIsSolid(ref);
    case Stat(ref) => RefIsSolid(ref);
    case ListVariant(list, pattern) =>
      ListWordSolid(list);
      OneIsSolid(ListWord(list));
      if pattern.Some? { WildmatIsSolid(pattern.value); }
      OptionalIsSolid(pattern);
      MoreSolid([ListWord(list)], Arg(pattern));
    case Group(group) => GroupIsSolid(group); OneIsSolid(group);
    case ListGroup(group, range) => ListGroupSolid(r);
    case Over(selector) => if selector.Some? { SelectorIsSolid(selector.value); } OptionalIsSolid(selector);
    case Xover(selector) => if selector.Some? { RangeIsSolid(selector.value); } OptionalIsSolid(selector);
    case Hdr(header, selector) => HeaderArgsSolid(header, selector);
    case Xhdr(header, selector) => HeaderArgsSolid(header, selector);
    case NewGroups(date, time, gmt) => DateArgsSolid(date, time, gmt);
    case NewNews(wildmat, date, time, gmt) =>
      WildmatIsSolid(wildmat);
      OneIsSolid(wildmat);
      DateArgsSolid(date, time, gmt);
      MoreSolid([wildmat], [date, time] + Gmt(gmt));
      assert [wildmat] + ([date, time] + Gmt(gmt)) == [wildmat, date, time] + Gmt(gmt);
    case Ihave(id) => MessageIdIsSolid(id); OneIsSolid(id);
    case Check(id) => MessageIdIsSolid(id); OneIsSolid(id);
    case TakeThis(id, _) => MessageIdIsSolid(id); OneIsSolid(id);
    case Capabilities(keyword) => if keyword.Some? { KeywordIsSolid(keyword.value); } OptionalIsSolid(keyword);
    case ModeReader => ReaderSolid(); OneIsSolid(Ascii("READER"));
    case ModeStream => ReaderSolid(); OneIsSolid(Ascii("STREAM"));
    case _ => NoneSolid();
  }

  lemma JoinedOne(a: Bytes)
    ensures Joined([a]) == a && Joined([]) == []
  {
    assert [a][1..] == [];
    SpacedNone();
  }

  lemma RefSuits(kind: P.RequestKind, ref: ArticleRef)
    requires ValidRef(ref) && (kind.Article? || kind.Body? || kind.Head? || kind.Stat?)
    ensures SuitsDirect(kind, Joined(Arg(RefArg(ref))))
  {
    hide Digits, CommandTokens, Solid, Joined, ValidMessageId;
    match ref
    case Current => JoinedOne([]);
    case Number(n) => JoinedOne(Digits(n)); NumberReadsBack(n);
    case Id(id) => JoinedOne(id); MessageIdIsSolid(id);
  }

  lemma OneArgSuits(r: Request)
    requires Valid(r) && (r.Group? || r.Over? || r.Xover? || r.Ihave? || r.Check? || r.TakeThis?)
    ensures SuitsDirect(KindOf(r), Joined(ArgsOf(r)))
  {
    hide CommandTokens, Joined, ValidMessageId, ValidGroupName, ValidRange, ValidSelector;
    JoinedOne(if |ArgsOf(r)| == 1 then ArgsOf(r)[0] else []);
    assert |ArgsOf(r)| == 1 ==> ArgsOf(r) == [ArgsOf(r)[0]];
  }

  lemma WordsSuit(r: Request)
    requires Valid(r) && (r.ListGroup? || r.Hdr? || r.Xhdr? || r.NewGroups? || r.NewNews? || r.Capabilities?)
    ensures SuitsDirect(KindOf(r), Joined(ArgsOf(r)))
  {
    hide CommandTokens, Joined, ValidGroupName, ValidRange, ValidSelector, ValidWildmat, ValidDate, ValidTime, ValidKeyword,
      ValidHeaderName, Ascii, EqIgnoreCase, AllSolid;
    ArgsAreSolid(r);
    TokensOfJoined(ArgsOf(r));
    EqItself(Ascii("GMT"));
    JoinedOne([]);
    if r.NewNews? { assert ArgsOf(r)[1..] == [r.date, r.time] + Gmt(r.gmt); }
  }

  lemma ListRecognised(r: Request)
    requires Valid(r) && (r.List? || r.ListVariant?)
    ensures ClassifyList(Joined(ArgsOf(r))) == KindOf(r)
  {
    hide CommandTokens, Joined, FindList, ListWord, ValidWildmat, AllSolid;
    ArgsAreSolid(r);
    TokensOfJoined(ArgsOf(r));
    if r.ListVariant? {
      ListWordFound(r.list);
      assert ArgsOf(r)[1..] == Arg(r.pattern);
    }
  }

  lemma StreamIsNotReader()
    ensures !EqIgnoreCase(Ascii("STREAM"), Ascii("READER"))
  {
    assert Ascii("STREAM")[0] == 83;
  }

  lemma ModeRecognised(r: Request)
    requires r.ModeReader? || r.ModeStream?
    ensures Classify(VerbOf(r), Joined(ArgsOf(r))) == KindOf(r)
  {
    hide FindVerb, VerbOf, Joined, Ascii, Solid;
    VerbIsFound(r);
    JoinedOne(ArgsOf(r)[0]);
    EqItself(ArgsOf(r)[0]);
    StreamIsNotReader();
  }

  lemma SimpleSuits(r: Request)
    requires IsSimple(r) && !r.List?
    ensures SuitsDirect(KindOf(r), Joined(ArgsOf(r)))
  {
    hide CommandTokens;
  }

  /** A constructed request other than AUTHINFO is classified as its own kind. */
  lemma Recognised(r: Request)
    requires Valid(r) && !r.AuthInfo?
    ensures Classify(VerbOf(r), Joined(ArgsOf(r))) == KindOf(r)
  {
    hide FindVerb, VerbOf, Joined, Ascii, Solid, SuitsDirect, ClassifyList, ValidRef, RefArg, ValidMessageId, ValidGroupName, ValidRange,
      ValidSelector, ValidWildmat, ValidDate, ValidTime, ValidKeyword, ValidHeaderName;
    VerbIsFound(r);
    if r.List? || r.ListVariant? { ListRecognised(r); }
    else if r.ModeReader? || r.ModeStream? { ModeRecognised(r); }
    else if r.Article? || r.Body? || r.Head? || r.Stat? { RefSuits(KindOf(r), r.ref); }
    else if r.Group? || r.Over? || r.Xover? || r.Ihave? || r.Check? || r.TakeThis? { OneArgSuits(r); }
    else if IsSimple(r) { SimpleSuits(r); }
    else { WordsSuit(r); }
  }

  // ----- AUTHINFO -----

  /** A value that survives the parser's handling of blanks. */
  predicate TidyValue(value: Bytes) {
    value != [] && !IsWs(value[|value| - 1]) && forall i | 0 <= i < |value| :: value[i] != 12
  }

  predicate Tidy(r: Request) { r.AuthInfo? ==> TidyValue(r.value) }

  lemma AuthWords(auth: AuthInfoKind)
    ensures Solid(AuthWord(auth)) && |AuthWord(auth)| == 4
  {
    UpperIsSolid("USER");
    UpperIsSolid("PASS");
  }

  lemma PassIsNotUser()
    ensures !EqIgnoreCase(Ascii("PASS"), Ascii("USER"))
  {
    assert Ascii("PASS")[0] == 80;
  }

  /** Dropping leading blanks leaves the end, and all of it valid. */
  lemma {:induction false} SkipWsKeepsEnd(s: Bytes)
    requires s != [] && !IsWs(s[|s| - 1])
    ensures SkipWs(s) != [] && (ValidAuthValue(s) ==> ValidAuthValue(SkipWs(s)))
    decreases |s|
  {
    if IsWs(s[0]) {
      SkipWsKeepsEnd(s[1..]);
    }
  }

  lemma AuthRecognised(auth: AuthInfoKind, value: Bytes)
    requires ValidAuthValue(value) && TidyValue(value)
    ensures ClassifyAuthInfo(AuthWord(auth) + SP + value) == KindOf(AuthInfo(auth, value))
  {
    hide Ascii, EqIgnoreCase, CommandTokens, SkipWs, ValidAuthValue, Solid;
    var word := AuthWord(auth);
    var args := word + SP + value;
    AuthWords(auth);
    WordEnds(word, SP + value);
    assert args == word + (SP + value);
    assert SkipWs(SP + value) == SkipWs(value) by { assert (SP + value)[1..] == value; SkipOne(value); }
    SkipWsKeepsEnd(value);
    EqItself(word);
    PassIsNotUser();
  }

  /** The content of a printed AUTHINFO line. */
  function AuthContent(auth: AuthInfoKind, value: Bytes): (content: Bytes) { Ascii("AUTHINFO") + (SP + (AuthWord(auth) + SP + value)) }

  lemma AuthLine(auth: AuthInfoKind, value: Bytes)
    ensures CommandLine(AuthInfo(auth, value)) == AuthContent(auth, value) + CRLF
    ensures Joined(ArgsOf(AuthInfo(auth, value))) == AuthWord(auth) + SP + value
  {
    hide Ascii, AuthWord, Spaced;
    var word := AuthWord(auth);
    SpacedFew(Ascii("AUTHINFO"), word, value, [], []);
    SpacedFew(word, value, [], [], []);
    assert [word, value][1..] == [value];
    Assoc(Ascii("AUTHINFO"), SP, word + SP + value);
    Assoc(Ascii("AUTHINFO") + SP, word, SP);
    Assoc(Ascii("AUTHINFO") + SP, word + SP, value);
  }

  lemma AuthVerb()
    ensures Solid(Ascii("AUTHINFO")) && |Ascii("AUTHINFO")| == 8
  {
    UpperIsSolid("AUTHINFO");
  }

  lemma AuthContentBytes(auth: AuthInfoKind, value: Bytes)
    requires ValidAuthValue(value)
    ensures var content := AuthContent(auth, value);
            && |content| == 14 + |value| && content[14..] == value && Unbroken(content)
            && forall i | 0 <= i < 14 :: content[i] == SPACE || !IsAsciiWhitespace(content[i])
  {
    hide Ascii, AuthWord;
    AuthVerb();
    AuthWords(auth);
  }

  lemma {:induction false} StripKeeps(s: Bytes, k: nat)
    requires k < |s| && !IsWs(s[k])
    ensures k < |StripEolWs(s)|
  {
    if IsWs(s[|s| - 1]) { StripKeeps(s[..|s| - 1], k); }
  }

  lemma TidyAuthComesApart(auth: AuthInfoKind, value: Bytes)
    requires ValidAuthValue(value) && TidyValue(value)
    ensures var content := AuthContent(auth, value);
            && StripEolWs(content) == content && !BadSpacing(content)
            && WsIndex(content) == 8 && content[..8] == Ascii("AUTHINFO") && SkipWs(content[8..]) == AuthWord(auth) + SP + value
  {
    hide Ascii, AuthWord, Solid;
    var content := AuthContent(auth, value);
    var args := AuthWord(auth) + SP + value;
    AuthVerb();
    AuthWords(auth);
    AuthContentBytes(auth, value);
    forall i | 0 <= i < |content| ensures content[i] == SPACE || content[i] == TAB || !IsAsciiWhitespace(content[i]) {
      if i >= 14 { assert content[i] == value[i - 14]; }
    }
    assert content[|content| - 1] == value[|value| - 1];
    WordEnds(Ascii("AUTHINFO"), SP + args);
    SolidStart(Ascii("AUTHINFO"), content);
    SolidStart(AuthWord(auth), args);
    SkipOne(args);
  }

  lemma VerbHasNoBlank(auth: AuthInfoKind, value: Bytes, i: nat)
    requires i < |AuthContent(auth, value)| && IsWs(AuthContent(auth, value)[i])
    ensures i >= 8
  {
    hide Ascii, AuthWord;
    AuthVerb();
  }

  lemma ShortArgs(auth: AuthInfoKind, value: Bytes, line: Bytes)
    requires line <= AuthContent(auth, value) && |line| < |AuthContent(auth, value)|
    ensures |SkipWs(line[WsIndex(line)..])| < |AuthWord(auth) + SP + value|
  {
    hide Ascii, AuthWord, Solid;
    AuthVerb();
    AuthWords(auth);
    var split := WsIndex(line);
    if split < |line| {
      assert split >= 8 by { VerbHasNoBlank(auth, value, split); }
      assert SkipWs(line[split..]) == SkipWs(line[split..][1..]);
    }
  }

  /** A value with a form feed makes the whole line unknown; a blank at its end is lost. */
  lemma UntidyAuthIsLost(auth: AuthInfoKind, value: Bytes, raw: nat)
    requires ValidAuthValue(value) && !TidyValue(value)
    ensures var r := ParseContent(AuthContent(auth, value), raw);
            && (12 in value ==> r.kind == P.RequestKind.Unknown)
            && (IsWs(value[|value| - 1]) ==> |r.args| < |AuthWord(auth) + SP + value|)
  {
    hide Ascii, AuthWord, Classify, AuthContent, Solid;
    var content := AuthContent(auth, value);
    AuthWords(auth);
    AuthContentBytes(auth, value);
    var line := StripEolWs(content);
    if 12 in value {
      var i :| 0 <= i < |value| && value[i] == 12;
      assert content[14 + i] == 12;
      StripKeeps(content, 14 + i);
      assert line[14 + i] == 12;
    }
    if IsWs(value[|value| - 1]) {
      assert IsWs(content[|content| - 1]) by { assert content[14 + (|value| - 1)] == value[|value| - 1]; }
      assert |line| < |content|;
      if !BadSpacing(line) { ShortArgs(auth, value, line); }
    }
  }

  // ----- the round trip -----

  /** Parsing the printed line gives back the kind, the verb and the arguments. */
  predicate RoundTrips(r: Request) {
    Parse(CommandLine(r)) == RequestLine(KindOf(r), VerbOf(r), Joined(ArgsOf(r)))
  }

  predicate Fits(r: Request) {
    |CommandLine(r)| <= 512 && |Joined(ArgsOf(r))| <= 497
  }

  /** What the parser makes of a line that comes apart into `verb` and `args`. */
  lemma ParseParts(content: Bytes, verb: Bytes, args: Bytes)
    requires Unbroken(content) && StripEolWs(content) == content && !BadSpacing(content)
    requires WsIndex(content) == |verb| && content[..|verb|] == verb && SkipWs(content[|verb|..]) == args
    requires Classify(verb, args) != P.RequestKind.AuthInfo && Classify(verb, args) != P.RequestKind.Unknown
    ensures Parse(content + CRLF) == RequestLine(Classify(verb, args), verb, args)
            <==> |content + CRLF| <= 512 && |args| <= 497
  {
    hide Classify, BadSpacing, LineEnd, WsIndex, SkipWs, StripEolWs;
    StripCompleteMeans(content);
  }

  lemma KindIsKnown(r: Request)
    ensures KindOf(r) != P.RequestKind.Unknown && KindOf(r) != P.RequestKind.AuthInfo
  {
  }

  lemma TidyUnlessAuth(r: Request)
    requires !r.AuthInfo?
    ensures Tidy(r)
  {
  }

  lemma UntidyCauses(value: Bytes)
    requires ValidAuthValue(value) && !TidyValue(value)
    ensures value != [] && (12 in value || IsWs(value[|value| - 1]))
  {
  }

  lemma AuthIsClassified(r: Request)
    requires r.AuthInfo?
    ensures Classify(VerbOf(r), Joined(ArgsOf(r))) == ClassifyAuthInfo(Joined(ArgsOf(r)))
  {
    hide FindVerb, VerbOf, Joined, ArgsOf, ClassifyAuthInfo, Solid;
    VerbIsFound(r);
  }

  lemma AuthRoundTrip(r: Request)
    requires Valid(r) && r.AuthInfo?
    ensures RoundTrips(r) <==> Fits(r) && Tidy(r)
  {
    hide Ascii, Spaced, Joined, Classify, StripEolWs, BadSpacing, WsIndex, SkipWs, AuthWord, AuthContent, ValidAuthValue, TidyValue,
      ParseContent, LineEnd, FindVerb, CommandLine;
    var content := AuthContent(r.auth, r.value);
    AuthLine(r.auth, r.value);
    AuthContentBytes(r.auth, r.value);
    if TidyValue(r.value) {
      TidyAuthComesApart(r.auth, r.value);
      AuthRecognised(r.auth, r.value);
      AuthVerb();
      AuthIsClassified(r);
      ParseParts(content, VerbOf(r), Joined(ArgsOf(r)));
    } else {
      UntidyCauses(r.value);
      UntidyAuthIsLost(r.auth, r.value, |content + CRLF|);
      StripCompleteMeans(content);
    }
  }

  /** Every constructed request but an untidy AUTHINFO reads back from its printed line,
      exactly as long as the line and the arguments keep within the parser's limits. */
  lemma RoundTrip(r: Request)
    requires Valid(r)
    ensures RoundTrips(r) <==> Fits(r) && Tidy(r)
  {
    hide Valid, Ascii, Spaced, Joined, Classify, StripEolWs, BadSpacing, WsIndex, SkipWs, VerbOf, ArgsOf, KindOf, Parse, Solid, AllSolid, Tidy;
    KindIsKnown(r);
    if r.AuthInfo? {
      AuthRoundTrip(r);
    } else {
      var content := VerbOf(r) + Spaced(ArgsOf(r));
      ArgsAreSolid(r);
      VerbIsFound(r);
      PrintedComesApart(VerbOf(r), ArgsOf(r));
      Recognised(r);
      ParseParts(content, VerbOf(r), Joined(ArgsOf(r)));
      assert Tidy(r) by { TidyUnlessAuth(r); }
    }
  }

  /** A password of one blank is lost on the way. */
  lemma BlankPasswordIsLost()
    ensures Valid(AuthInfo(Pass, [SPACE])) && !RoundTrips(AuthInfo(Pass, [SPACE]))
  {
    hide Parse, CommandLine, VerbOf, ArgsOf;
    RoundTrip(AuthInfo(Pass, [SPACE]));
  }
}
