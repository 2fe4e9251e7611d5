/** What the request-line parser accepts: exactly the lines that spell some request that a
    constructor makes, up to the case of keywords, the spelling of numbers and the width of
    blanks. */
module RequestSoundness {
  import opened Wire
  import opened Text
  import opened Lines
  import opened Requests
  import opened RequestLines
  import P = Protocol

  // ----- which words spell which request -----

  predicate RefSpelled(ref: ArticleRef, words: seq<Bytes>) {
    match ref
    case Current => words == []
    case Number(n) => |words| == 1 && ArticleNumberToken(words[0]) == Some(n)
    case Id(id) => words == [id]
  }

  predicate GmtSpelled(gmt: bool, words: seq<Bytes>) {
    if gmt then |words| == 1 && EqIgnoreCase(words[0], Ascii("GMT")) else words == []
  }

  /** The words after the verb are the arguments of the request: keywords in any case,
      numbers with any leading zeros, all else to the letter. */
  predicate ArgsSpelled(r: Request, words: seq<Bytes>) {
    match r
    case Article(ref) => RefSpelled(ref, words)
    case Body(ref) => RefSpelled(ref, words)
    case Head(ref) => RefSpelled(ref, words)
    case Stat(ref) => RefSpelled(ref, words)
    case ListVariant(list, pattern) => words != [] && EqIgnoreCase(words[0], ListWord(list)) && words[1..] == Arg(pattern)
    case NewGroups(date, time, gmt) => |words| >= 2 && words[..2] == [date, time] && GmtSpelled(gmt, words[2..])
    case NewNews(wildmat, date, time, gmt) => |words| >= 3 && words[..3] == [wildmat, date, time] && GmtSpelled(gmt, words[3..])
    case ModeReader => |words| == 1 && EqIgnoreCase(words[0], Ascii("READER"))
    case ModeStream => |words| == 1 && EqIgnoreCase(words[0], Ascii("STREAM"))
    case _ => words == ArgsOf(r)
  }

  /** LIST HEADERS with MSGID or RANGE: the one line accepted that no constructor makes. */
  predicate IsHeadersQuery(words: seq<Bytes>) {
    && |words| == 2 && EqIgnoreCase(words[0], Ascii("HEADERS"))
    && (EqIgnoreCase(words[1], Ascii("MSGID")) || EqIgnoreCase(words[1], Ascii("RANGE")))
  }

  // ----- the verb -----

  lemma {:induction false} FindVerbMeans(verb: Bytes, from: nat) returns (i: nat)
    requires FindVerb(verb, from).Some?
    ensures i < VERB_COUNT && EqIgnoreCase(verb, Ascii(VerbAt(i).0)) && FindVerb(verb, from) == Some(VerbAt(i).1)
    decreases if from < VERB_COUNT then VERB_COUNT - from else 0
  {
    hide VerbAt, Ascii, EqIgnoreCase;
    if EqIgnoreCase(verb, Ascii(VerbAt(from).0)) {
      i := from;
    } else {
      i := FindVerbMeans(verb, from + 1);
    }
  }

  /** Where a command stands in the verb table. */
  function CommandIndex(c: CommandKind): (i: nat) {
    match c
    case AuthInfoCommand => 1
    case ListCommand => 12
    case ModeCommand => 14
    case Direct(kind) =>
      match kind {
        case Article => 0 case Body => 2 case Capabilities => 3 case Check => 4 case Date => 5 case Group => 6 case Hdr => 7
        case Head => 8 case Help => 9 case Ihave => 10 case Last => 11 case ListGroup => 13 case NewGroups => 15 case NewNews => 16
        case Next => 17 case Over => 18 case Post => 19 case Quit => 20 case StartTls => 21 case Stat => 22 case TakeThis => 23
        case Xhdr => 24 case _ => 25
      }
  }

  lemma CommandsDiffer(i: nat)
    requires i < VERB_COUNT
    ensures CommandIndex(VerbAt(i).1) == i
  {
  }

  lemma RequestIndex(r: Request)
    ensures CommandIndex(CommandOf(r)) == VerbIndex(r)
  {
  }

  /** A verb that was found as a request's command is that request's verb. */
  lemma VerbIsSpelled(verb: Bytes, r: Request)
    requires FindVerb(verb, 0) == Some(CommandOf(r))
    ensures EqIgnoreCase(verb, VerbOf(r))
  {
    hide VerbAt, Ascii, EqIgnoreCase, FindVerb, CommandOf, VerbOf, VerbIndex, CommandIndex;
    var i := FindVerbMeans(verb, 0);
    CommandsDiffer(i);
    RequestIndex(r);
    VerbIsEntry(r);
  }

  // ----- the arguments -----

  lemma OneWord(a: Bytes)
    requires Solid(a)
    ensures CommandTokens(a) == [a]
  {
    hide CommandTokens, Solid, Joined;
    assert AllSolid([a]);
    TokensOfJoined([a]);
    JoinedOne(a);
  }

  lemma RefSound(args: Bytes) returns (ref: ArticleRef)
    requires args == [] || ValidFetchSelector(args)
    ensures ValidRef(ref) && RefSpelled(ref, CommandTokens(args))
  {
    hide CommandTokens, Solid, ValidMessageId, DecimalValue;
    if args == [] {
      NoTokens();
      ref := Current;
    } else if AllDigits(args) {
      DigitsAreSolid(args);
      OneWord(args);
      ref := Number(ArticleNumberToken(args).value);
    } else {
      MessageIdIsSolid(args);
      OneWord(args);
      ref := Id(args);
    }
  }

  /** What soundness says of one kind and its arguments. */
  predicate Witnesses(r: Request, kind: P.RequestKind, args: Bytes) {
    Valid(r) && KindOf(r) == kind && CommandOf(r) == Direct(kind) && ArgsSpelled(r, CommandTokens(args))
  }

  lemma RefKindSound(kind: P.RequestKind, args: Bytes) returns (r: Request)
    requires SuitsDirect(kind, args) && (kind.Article? || kind.Body? || kind.Head? || kind.Stat?)
    ensures Witnesses(r, kind, args)
  {
    hide CommandTokens, ValidFetchSelector, ValidRef, RefSpelled;
    var ref := RefSound(args);
    r := match kind case Article => Article(ref) case Body => Body(ref) case Head => Head(ref) case _ => Stat(ref);
  }

  lemma OneArgSound(kind: P.RequestKind, args: Bytes) returns (r: Request)
    requires SuitsDirect(kind, args) && (kind.Group? || kind.Over? || kind.Xover? || kind.Ihave? || kind.Check? || kind.TakeThis?)
    ensures Witnesses(r, kind, args)
  {
    hide CommandTokens, Solid, ValidMessageId, ValidGroupName, ValidRange, ValidSelector;
    NoTokens();
    if args != [] || !(kind.Over? || kind.Xover?) {
      if kind.Group? { GroupIsSolid(args); } else if kind.Over? { SelectorIsSolid(args); }
      else if kind.Xover? { RangeIsSolid(args); } else { MessageIdIsSolid(args); }
      OneWord(args);
    }
    var arg := if args == [] then None else Some(args);
    r := match kind
      case Group => Group(args)
      case Over => Over(arg)
      case Xover => Xover(arg)
      case Ihave => Ihave(args)
      case Check => Check(args)
      case _ => TakeThis(args, []);
  }

  lemma WordsSound(kind: P.RequestKind, args: Bytes) returns (r: Request)
    requires SuitsDirect(kind, args) && (kind.ListGroup? || kind.Hdr? || kind.Xhdr? || kind.Capabilities?)
    ensures Witnesses(r, kind, args)
  {
    hide CommandTokens, ValidGroupName, ValidRange, ValidSelector, ValidHeaderName, ValidKeyword;
    NoTokens();
    var words := CommandTokens(args);
    var first := if words == [] then None else Some(words[0]);
    var second := if |words| < 2 then None else Some(words[1]);
    assert |words| == 1 ==> words == [words[0]];
    assert |words| == 2 ==> words == [words[0], words[1]];
    r := match kind
      case ListGroup => ListGroup(first, second)
      case Hdr => Hdr(words[0], second)
      case Xhdr => Xhdr(words[0], second)
      case _ => Capabilities(first);
  }

  lemma DateSound(kind: P.RequestKind, args: Bytes) returns (r: Request)
    requires SuitsDirect(kind, args) && (kind.NewGroups? || kind.NewNews?)
    ensures Witnesses(r, kind, args)
  {
    hide CommandTokens, ValidWildmat, ValidDate, ValidTime, EqIgnoreCase, Ascii;
    var words := CommandTokens(args);
    if kind.NewGroups? {
      assert words[..2] == [words[0], words[1]];
      r := NewGroups(words[0], words[1], |words| == 3);
    } else {
      var rest := words[1..];
      assert words[1] == rest[0] && words[2] == rest[1] && words[3..] == rest[2..];
      assert words[..3] == [words[0], words[1], words[2]];
      r := NewNews(words[0], words[1], words[2], |words| == 4);
    }
  }

  lemma SimpleSound(kind: P.RequestKind, args: Bytes) returns (r: Request)
    requires SuitsDirect(kind, args)
    requires kind.Date? || kind.Help? || kind.Last? || kind.Next? || kind.Post? || kind.Quit? || kind.StartTls?
    ensures Witnesses(r, kind, args)
  {
    hide CommandTokens;
    NoTokens();
    r := match kind
      case Date => Date
      case Help => Help
      case Last => Last
      case Next => Next
      case Post => Post
      case Quit => Quit
      case _ => StartTls;
  }

  predicate IsDirect(kind: P.RequestKind) {
    || kind.Article? || kind.Body? || kind.Head? || kind.Stat?
    || kind.Group? || kind.Over? || kind.Xover? || kind.Ihave? || kind.Check? || kind.TakeThis?
    || kind.ListGroup? || kind.Hdr? || kind.Xhdr? || kind.Capabilities? || kind.NewGroups? || kind.NewNews?
    || kind.Date? || kind.Help? || kind.Last? || kind.Next? || kind.Post? || kind.Quit? || kind.StartTls?
  }

  lemma TableIsDirect(i: nat)
    requires i < VERB_COUNT && VerbAt(i).1.Direct?
    ensures IsDirect(VerbAt(i).1.kind)
  {
  }

  lemma DirectSound(kind: P.RequestKind, args: Bytes) returns (r: Request)
    requires SuitsDirect(kind, args) && IsDirect(kind)
    ensures Witnesses(r, kind, args)
  {
    hide SuitsDirect, Witnesses;
    if kind.Article? || kind.Body? || kind.Head? || kind.Stat? { r := RefKindSound(kind, args); }
    else if kind.Group? || kind.Over? || kind.Xover? || kind.Ihave? || kind.Check? || kind.TakeThis? { r := OneArgSound(kind, args); }
    else if kind.ListGroup? || kind.Hdr? || kind.Xhdr? || kind.Capabilities? { r := WordsSound(kind, args); }
    else if kind.NewGroups? || kind.NewNews? { r := DateSound(kind, args); }
    else { r := SimpleSound(kind, args); }
  }

  lemma FindListMeans(word: Bytes)
    requires FindList(word).Some?
    ensures EqIgnoreCase(word, ListWord(FindList(word).value))
  {
    hide EqIgnoreCase, Ascii;
  }

  /** The arguments of LIST, or the one form without a constructor. */
  lemma ListSound(args: Bytes) returns (r: Request)
    requires ClassifyList(args) != P.RequestKind.Unknown
    ensures Valid(r) && CommandOf(r) == ListCommand && KindOf(r) == ClassifyList(args)
    ensures ArgsSpelled(r, CommandTokens(args)) || (r == ListVariant(Headers, None) && IsHeadersQuery(CommandTokens(args)))
  {
    hide CommandTokens, ValidWildmat, EqIgnoreCase, Ascii;
    var words := CommandTokens(args);
    if words == [] {
      r := List;
    } else {
      FindListMeans(words[0]);
      var list := FindList(words[0]).value;
      var rest := words[1..];
      var pattern := if |rest| == 1 && list != Headers then Some(rest[0]) else None;
      assert |rest| == 1 ==> rest == [words[1]];
      r := ListVariant(list, pattern);
    }
  }

  // ----- the whole line -----

  /** The words of the line, the verb first. */
  function WordsOf(line: Bytes): (words: seq<Bytes>) { if |line| < 2 then [] else CommandTokens(line[..|line| - 2]) }

  /** A strict line that starts with a word and has no white space but blanks in it. */
  predicate SpacedLine(line: Bytes) {
    && 3 <= |line| && line[|line| - 2..] == CRLF && !IsWs(line[0])
    && forall i | 0 <= i < |line| - 2 :: IsWs(line[i]) || !IsAsciiWhitespace(line[i])
  }

  /** Such a line of at most 512 bytes. */
  predicate WellSpacedLine(line: Bytes) { SpacedLine(line) && |line| <= 512 }

  /** The line spells the request. */
  predicate Spells(line: Bytes, r: Request) {
    WordsOf(line) != [] && EqIgnoreCase(WordsOf(line)[0], VerbOf(r)) && ArgsSpelled(r, WordsOf(line)[1..])
  }

  lemma {:induction false} TokensBeforeBlanks(s: Bytes, b: byte)
    requires IsWs(b)
    ensures CommandTokens(s + [b]) == CommandTokens(s)
    decreases |s|
  {
    var t := s + [b];
    if s == [] {
      assert t[1..] == [];
    } else if IsWs(s[0]) {
      assert t[1..] == s[1..] + [b];
      TokensBeforeBlanks(s[1..], b);
    } else {
      var n := WsIndex(s);
      WsIndexIs(t, n);
      assert t[..n] == s[..n] && t[n..] == s[n..] + [b];
      TokensBeforeBlanks(s[n..], b);
    }
  }

  lemma {:induction false} TokensOfStripped(s: Bytes)
    ensures CommandTokens(StripEolWs(s)) == CommandTokens(s)
  {
    hide CommandTokens;
    if s != [] && IsWs(s[|s| - 1]) {
      var init := s[..|s| - 1];
      TokensOfStripped(init);
      TokensBeforeBlanks(init, s[|s| - 1]);
      assert s == init + [s[|s| - 1]];
    }
  }

  lemma {:induction false} TokensOfSkipped(s: Bytes)
    ensures CommandTokens(SkipWs(s)) == CommandTokens(s)
  {
    if s != [] && IsWs(s[0]) { TokensOfSkipped(s[1..]); }
  }

  /** What stripping drops is blanks. */
  lemma {:induction false} StrippedRest(s: Bytes)
    ensures forall i | |StripEolWs(s)| <= i < |s| :: IsWs(s[i])
  {
    if s != [] && IsWs(s[|s| - 1]) {
      StrippedRest(s[..|s| - 1]);
      assert forall i | 0 <= i < |s| - 1 :: s[..|s| - 1][i] == s[i];
    }
  }

  lemma FirstToken(s: Bytes)
    requires s != [] && !IsWs(s[0])
    ensures CommandTokens(s) == [s[..WsIndex(s)]] + CommandTokens(s[WsIndex(s)..])
  {
  }

  /** A line that is not refused comes apart into the verb and the words behind it. */
  lemma ParsedParts(line: Bytes)
    requires Parse(line).kind != P.RequestKind.Unknown
    ensures var q := Parse(line);
            && q.kind == Classify(q.verb, q.args) && WordsOf(line) == [q.verb] + CommandTokens(q.args)
            && SpacedLine(line) && |line| <= 4096
            && (q.kind != P.RequestKind.AuthInfo ==> |line| <= 512 && |q.args| <= 497)
  {
    hide CommandTokens, Classify, StripEolWs, WsIndex, SkipWs, LineEnd;
    LineEndMeans(line);
    var content := line[..|line| - 2];
    var stripped := StripEolWs(content);
    StrippedRest(content);
    TokensOfStripped(content);
    var split := WsIndex(stripped);
    FirstToken(stripped);
    TokensOfSkipped(stripped[split..]);
    forall i | 0 <= i < |content| ensures IsWs(line[i]) || !IsAsciiWhitespace(line[i]) {
      assert line[i] == content[i];
      if i < |stripped| { assert stripped[i] == content[i]; }
    }
    assert stripped[0] == line[0];
  }

  lemma UpperMatchSolid(args: Bytes, w: string)
    requires EqIgnoreCase(args, Ascii(w)) && UpperWord(w) && w != ""
    ensures Solid(args)
  {
    forall i | 0 <= i < |args| ensures !IsAsciiWhitespace(args[i]) {
      UpperAt(w, i);
      assert Upper(args[i]) == Upper(Ascii(w)[i]);
    }
  }

  lemma ModeSound(args: Bytes, r: Request)
    requires (r == ModeReader && EqIgnoreCase(args, Ascii("READER"))) || (r == ModeStream && EqIgnoreCase(args, Ascii("STREAM")))
    ensures Valid(r) && ArgsSpelled(r, CommandTokens(args))
  {
    hide CommandTokens, Solid;
    UpperMatchSolid(args, if r.ModeReader? then "READER" else "STREAM");
    OneWord(args);
  }

  lemma ClassifySound(verb: Bytes, args: Bytes) returns (r: Request)
    requires Classify(verb, args) != P.RequestKind.Unknown && FindVerb(verb, 0) != Some(AuthInfoCommand)
    ensures Valid(r) && KindOf(r) == Classify(verb, args) && EqIgnoreCase(verb, VerbOf(r))
    ensures ArgsSpelled(r, CommandTokens(args)) || (r == ListVariant(Headers, None) && IsHeadersQuery(CommandTokens(args)))
  {
    hide CommandTokens, FindVerb, VerbOf, SuitsDirect, ClassifyList, EqIgnoreCase, Ascii, Valid, Solid;
    match FindVerb(verb, 0).value
    case Direct(kind) =>
      var i := FindVerbMeans(verb, 0);
      TableIsDirect(i);
      r := DirectSound(kind, args);
      VerbIsSpelled(verb, r);
    case ListCommand =>
      r := ListSound(args);
      VerbIsSpelled(verb, r);
    case ModeCommand =>
      r := if EqIgnoreCase(args, Ascii("READER")) then ModeReader else ModeStream;
      ModeSound(args, r);
      VerbIsSpelled(verb, r);
  }

  /** The kinds of AUTHINFO lines, and the kind of a refused one. */
  predicate Apart(kind: P.RequestKind) { kind.Unknown? || kind.AuthInfo? || kind.AuthInfoUser? || kind.AuthInfoPass? }

  lemma AuthIsApart(verb: Bytes, args: Bytes)
    requires FindVerb(verb, 0) == Some(AuthInfoCommand)
    ensures Apart(Classify(verb, args))
  {
    hide FindVerb, CommandTokens;
  }

  predicate SpellsOrAsks(line: Bytes, r: Request) {
    Spells(line, r) ||
    (r == ListVariant(Headers, None) && WordsOf(line) != [] && EqIgnoreCase(WordsOf(line)[0], VerbOf(r)) && IsHeadersQuery(WordsOf(line)[1..]))
  }

  /** The line spells a request of this kind that a constructor makes, or is the LIST HEADERS
      query. */
  ghost predicate SpellsKind(line: Bytes, kind: P.RequestKind) {
    exists r :: Valid(r) && KindOf(r) == kind && SpellsOrAsks(line, r)
  }

  lemma ParseIsSound(line: Bytes)
    requires !Apart(Parse(line).kind)
    ensures WellSpacedLine(line) && |Parse(line).args| <= 497 && SpellsKind(line, Parse(line).kind)
  {
    hide Parse, Classify, FindVerb, WordsOf, CommandTokens, Valid, ArgsSpelled, IsHeadersQuery, VerbOf, EqIgnoreCase, SpacedLine;
    var q := Parse(line);
    ParsedParts(line);
    if FindVerb(q.verb, 0) == Some(AuthInfoCommand) { AuthIsApart(q.verb, q.args); }
    var r := ClassifySound(q.verb, q.args);
    assert WordsOf(line)[1..] == CommandTokens(q.args);
    assert SpellsOrAsks(line, r);
  }

  // ----- and every such line is accepted -----

  /** Arguments as they come out of a line: no blanks at either end. */
  predicate TidyArgs(args: Bytes) { args == [] || (!IsWs(args[0]) && !IsWs(args[|args| - 1])) }

  /** Where no word starts any more there are only blanks. */
  lemma {:induction false} NoWordsAllBlank(s: Bytes, from: nat)
    requires from <= |s| && CommandTokens(s[from..]) == []
    ensures forall i | from <= i < |s| :: IsWs(s[i])
    decreases |s| - from
  {
    if from < |s| {
      assert s[from..][1..] == s[from + 1..];
      NoWordsAllBlank(s, from + 1);
    }
  }

  /** Tidy arguments of a single word are that word, and of none are empty. */
  lemma TidyWord(args: Bytes)
    requires TidyArgs(args)
    ensures |CommandTokens(args)| == 1 ==> CommandTokens(args)[0] == args
    ensures CommandTokens(args) == [] ==> args == []
  {
    if args != [] {
      var n := WsIndex(args);
      FirstToken(args);
      if |CommandTokens(args)| == 1 {
        NoWordsAllBlank(args, n);
      }
    }
  }

  lemma RefComplete(kind: P.RequestKind, ref: ArticleRef, args: Bytes)
    requires ValidRef(ref) && RefSpelled(ref, CommandTokens(args)) && TidyArgs(args)
    requires kind.Article? || kind.Body? || kind.Head? || kind.Stat?
    ensures SuitsDirect(kind, args)
  {
    hide CommandTokens, Solid, ValidMessageId, DecimalValue, TidyArgs;
    TidyWord(args);
    if ref.Id? { MessageIdIsSolid(ref.id); }
  }

  lemma OneArgComplete(r: Request, args: Bytes)
    requires Valid(r) && ArgsSpelled(r, CommandTokens(args)) && TidyArgs(args)
    requires r.Group? || r.Over? || r.Xover? || r.Ihave? || r.Check? || r.TakeThis?
    ensures SuitsDirect(KindOf(r), args)
  {
    hide CommandTokens, ValidMessageId, ValidGroupName, ValidRange, ValidSelector, TidyArgs;
    TidyWord(args);
  }

  lemma WordsComplete(r: Request, args: Bytes)
    requires Valid(r) && ArgsSpelled(r, CommandTokens(args)) && TidyArgs(args)
    requires r.ListGroup? || r.Hdr? || r.Xhdr? || r.NewGroups? || r.NewNews? || r.Capabilities?
    ensures SuitsDirect(KindOf(r), args)
  {
    hide CommandTokens, ValidGroupName, ValidRange, ValidSelector, ValidWildmat, ValidDate, ValidTime, ValidKeyword, ValidHeaderName, Ascii,
      EqIgnoreCase, TidyArgs;
    TidyWord(args);
    var words := CommandTokens(args);
    if r.NewGroups? { assert words[0] == words[..2][0] && words[1] == words[..2][1]; }
    if r.NewNews? {
      assert words[0] == words[..3][0] && words[1] == words[..3][1] && words[2] == words[..3][2];
      assert words[1..][2..] == words[3..];
    }
  }

  lemma SimpleComplete(r: Request, args: Bytes)
    requires IsSimple(r) && !r.List? && ArgsSpelled(r, CommandTokens(args)) && TidyArgs(args)
    ensures SuitsDirect(KindOf(r), args)
  {
    hide CommandTokens, TidyArgs;
    TidyWord(args);
  }

  lemma Respects(a: Bytes, b: Bytes, w: Bytes)
    requires EqIgnoreCase(a, b)
    ensures EqIgnoreCase(a, w) <==> EqIgnoreCase(b, w)
  {
    if EqIgnoreCase(a, w) { MatchEachOther(a, b, w); }
    if EqIgnoreCase(b, w) { forall i | 0 <= i < |a| ensures Upper(a[i]) == Upper(w[i]) { assert Upper(b[i]) == Upper(w[i]); } }
  }

  lemma FindListRespects(a: Bytes, b: Bytes)
    requires EqIgnoreCase(a, b)
    ensures FindList(a) == FindList(b)
  {
    hide Ascii, EqIgnoreCase;
    Respects(a, b, Ascii("ACTIVE"));
    Respects(a, b, Ascii("ACTIVE.TIMES"));
    Respects(a, b, Ascii("NEWSGROUPS"));
    Respects(a, b, Ascii("OVERVIEW.FMT"));
    Respects(a, b, Ascii("HEADERS"));
    Respects(a, b, Ascii("DISTRIB.PATS"));
  }

  lemma ListComplete(r: Request, args: Bytes)
    requires Valid(r) && (r.List? || r.ListVariant?)
    requires ArgsSpelled(r, CommandTokens(args)) || (r == ListVariant(Headers, None) && IsHeadersQuery(CommandTokens(args)))
    ensures ClassifyList(args) == KindOf(r)
  {
    hide CommandTokens, ValidWildmat, EqIgnoreCase, Ascii, FindList;
    if r.ListVariant? {
      var words := CommandTokens(args);
      ListWordFound(r.list);
      FindListRespects(words[0], ListWord(r.list));
    }
  }

  lemma RefOfValid(r: Request)
    requires Valid(r) && (r.Article? || r.Body? || r.Head? || r.Stat?)
    ensures ValidRef(r.ref)
  {
  }

  lemma ModeComplete(r: Request, args: Bytes)
    requires (r.ModeReader? || r.ModeStream?) && ArgsSpelled(r, CommandTokens(args)) && TidyArgs(args)
    ensures r.ModeReader? ==> EqIgnoreCase(args, Ascii("READER"))
    ensures r.ModeStream? ==> EqIgnoreCase(args, Ascii("STREAM")) && !EqIgnoreCase(args, Ascii("READER"))
  {
    hide CommandTokens, EqIgnoreCase, Ascii, TidyArgs;
    TidyWord(args);
    StreamIsNotReader();
    if r.ModeStream? { Respects(args, Ascii("STREAM"), Ascii("READER")); }
  }

  /** A verb in any spelling and words that spell the arguments are classified as the kind of
      the request they spell. */
  lemma ClassifyComplete(verb: Bytes, args: Bytes, r: Request)
    requires Valid(r) && !r.AuthInfo? && EqIgnoreCase(verb, VerbOf(r)) && TidyArgs(args)
    requires ArgsSpelled(r, CommandTokens(args)) || (r == ListVariant(Headers, None) && IsHeadersQuery(CommandTokens(args)))
    ensures Classify(verb, args) == KindOf(r)
  {
    hide CommandTokens, FindVerb, VerbOf, VerbAt, VerbIndex, SuitsDirect, ClassifyList, EqIgnoreCase, Ascii, Valid, TidyArgs, IsHeadersQuery;
    VerbIsEntry(r);
    FindsEntry(verb, VerbIndex(r), 0);
    if r.List? || r.ListVariant? { ListComplete(r, args); }
    else if r.ModeReader? || r.ModeStream? { ModeComplete(r, args); }
    else if r.Article? || r.Body? || r.Head? || r.Stat? { RefOfValid(r); RefComplete(KindOf(r), r.ref, args); }
    else if r.Group? || r.Over? || r.Xover? || r.Ihave? || r.Check? || r.TakeThis? { OneArgComplete(r, args); }
    else if IsSimple(r) { SimpleComplete(r, args); }
    else { WordsComplete(r, args); }
  }

  lemma {:induction false} SkippedEnd(s: Bytes)
    requires s != [] ==> !IsWs(s[|s| - 1])
    ensures TidyArgs(SkipWs(s))
  {
    if s != [] && IsWs(s[0]) { SkippedEnd(s[1..]); }
  }

  lemma {:induction false} StripKeepsFirst(s: Bytes)
    requires s != [] && !IsWs(s[0])
    ensures StripEolWs(s) != []
  {
    StripKeeps(s, 0);
  }

  /** A well-spaced line comes apart, and is classified by its parts. */
  lemma WellSpacedParts(line: Bytes)
    requires SpacedLine(line) && |line| <= 4096
    ensures var q := Parse(line);
            && WordsOf(line) == [q.verb] + CommandTokens(q.args) && TidyArgs(q.args)
            && ((|line| <= 512 && |q.args| <= 497) || Classify(q.verb, q.args).AuthInfo? ==> q.kind == Classify(q.verb, q.args))
  {
    hide CommandTokens, Classify, StripEolWs, WsIndex, SkipWs, LineEnd, TidyArgs;
    var content := line[..|line| - 2];
    assert line == content + CRLF;
    forall i | 0 <= i < |content| ensures !IsBreak(content[i]) { assert content[i] == line[i]; }
    StripCompleteMeans(content);
    var stripped := StripEolWs(content);
    StripKeepsFirst(content);
    assert stripped[0] == line[0];
    TokensOfStripped(content);
    forall i | 0 <= i < |stripped| ensures IsWs(stripped[i]) || !IsAsciiWhitespace(stripped[i]) { assert stripped[i] == line[i]; }
    var split := WsIndex(stripped);
    FirstToken(stripped);
    TokensOfSkipped(stripped[split..]);
    SkippedEnd(stripped[split..]);
  }

  /** The request-line parser, exactly: a line is of a kind, AUTHINFO apart, if and only if it
      is well spaced, within the limits, and spells a request of that kind that a constructor
      makes, or is the LIST HEADERS query. */
  lemma ParseExactly(line: Bytes, kind: P.RequestKind)
    requires !Apart(kind)
    ensures Parse(line).kind == kind <==>
            WellSpacedLine(line) && |Parse(line).args| <= 497 && SpellsKind(line, kind)
  {
    hide Parse, Classify, WordsOf, CommandTokens, Valid, ArgsSpelled, IsHeadersQuery, VerbOf, EqIgnoreCase, SpacedLine, TidyArgs;
    if Parse(line).kind == kind { ParseIsSound(line); }
    if WellSpacedLine(line) && |Parse(line).args| <= 497 && SpellsKind(line, kind) {
      var r :| Valid(r) && KindOf(r) == kind && SpellsOrAsks(line, r);
      var q := Parse(line);
      WellSpacedParts(line);
      assert WordsOf(line)[1..] == CommandTokens(q.args);
      ClassifyComplete(q.verb, q.args, r);
    }
  }

  // ----- AUTHINFO -----

  predicate AllBlank(s: Bytes) { forall i | 0 <= i < |s| :: IsWs(s[i]) }

  lemma {:induction false} SkippedBlanks(s: Bytes) returns (blanks: Bytes)
    ensures s == blanks + SkipWs(s) && AllBlank(blanks)
  {
    if s != [] && IsWs(s[0]) {
      var more := SkippedBlanks(s[1..]);
      blanks := [s[0]] + more;
    } else {
      blanks := [];
    }
  }

  /** The arguments are the keyword in any case, blanks, and the value. */
  predicate AuthSpelled(args: Bytes, auth: AuthInfoKind, word: Bytes, blanks: Bytes, value: Bytes) {
    args == word + blanks + value && EqIgnoreCase(word, AuthWord(auth)) && blanks != [] && AllBlank(blanks)
  }

  lemma AuthArgsSound(args: Bytes) returns (auth: AuthInfoKind, word: Bytes, blanks: Bytes, value: Bytes)
    requires TidyArgs(args) && (ClassifyAuthInfo(args).AuthInfoUser? || ClassifyAuthInfo(args).AuthInfoPass?)
    ensures AuthSpelled(args, auth, word, blanks, value) && ValidAuthValue(value) && !IsWs(value[|value| - 1])
    ensures KindOf(AuthInfo(auth, value)) == ClassifyAuthInfo(args)
  {
    hide EqIgnoreCase, Ascii, IsSasl, CommandTokens, SkipWs;
    var split := WsIndex(args);
    var rest := args[split..];
    word, value := args[..split], SkipWs(rest);
    blanks := SkippedBlanks(rest);
    auth := if ClassifyAuthInfo(args).AuthInfoUser? then User else Pass;
    assert args == word + rest == word + blanks + value;
    assert blanks == [] ==> rest == value;
    assert args[|args| - 1] == value[|value| - 1];
  }

  lemma ValueIsSomething(value: Bytes)
    requires ValidAuthValue(value)
    ensures value != []
  {
  }

  lemma AuthKindsOfVerb(verb: Bytes, args: Bytes)
    requires Classify(verb, args).AuthInfoUser? || Classify(verb, args).AuthInfoPass?
    ensures FindVerb(verb, 0) == Some(AuthInfoCommand) && Classify(verb, args) == ClassifyAuthInfo(args)
  {
    hide FindVerb, CommandTokens, ClassifyAuthInfo, EqIgnoreCase, Ascii, SuitsDirect;
    if FindVerb(verb, 0).Some? && FindVerb(verb, 0).value.Direct? {
      var i := FindVerbMeans(verb, 0);
      TableIsDirect(i);
    }
  }

  lemma ArgsHaveNoFormFeed(line: Bytes)
    requires WellSpacedLine(line)
    ensures forall i | 0 <= i < |Parse(line).args| :: Parse(line).args[i] != 12
  {
    hide CommandTokens, Classify, StripEolWs, WsIndex, SkipWs, LineEnd;
    var content := line[..|line| - 2];
    assert line == content + CRLF;
    forall i | 0 <= i < |content| ensures !IsBreak(content[i]) && content[i] != 12 { assert content[i] == line[i]; }
    StripCompleteMeans(content);
    var stripped := StripEolWs(content);
    var split := WsIndex(stripped);
    var blanks := SkippedBlanks(stripped[split..]);
    var args := SkipWs(stripped[split..]);
    forall i | 0 <= i < |args| ensures args[i] != 12 {
      assert args[i] == stripped[split..][|blanks| + i] == stripped[split + |blanks| + i] == content[split + |blanks| + i];
    }
  }

  lemma AuthVerbFound(verb: Bytes)
    requires EqIgnoreCase(verb, Ascii("AUTHINFO"))
    ensures FindVerb(verb, 0) == Some(AuthInfoCommand)
  {
    hide EqIgnoreCase, FindVerb;
    FindsEntry(verb, 1, 0);
  }

  lemma AuthVerbSpelled(verb: Bytes)
    requires FindVerb(verb, 0) == Some(AuthInfoCommand)
    ensures EqIgnoreCase(verb, Ascii("AUTHINFO"))
  {
    hide EqIgnoreCase, FindVerb, Ascii;
    VerbIsSpelled(verb, AuthInfo(User, []));
  }

  lemma AuthWordsDiffer(auth: AuthInfoKind)
    ensures EqIgnoreCase(AuthWord(auth), Ascii("USER")) <==> auth == User
    ensures EqIgnoreCase(AuthWord(auth), Ascii("PASS")) <==> auth == Pass
  {
    assert AuthWord(auth)[0] == if auth == User then 85 else 80;
  }

  lemma {:induction false} SkipBlanks(blanks: Bytes, value: Bytes)
    requires AllBlank(blanks) && value != [] && !IsWs(value[0])
    ensures SkipWs(blanks + value) == value
  {
    var s := blanks + value;
    if blanks == [] {
      assert s == value;
    } else {
      SkipBlanks(blanks[1..], value);
      assert s[1..] == blanks[1..] + value;
    }
  }

  lemma SolidHasNoWs(word: Bytes)
    requires Solid(word)
    ensures forall i | 0 <= i < |word| :: !IsWs(word[i])
  {
  }

  lemma AuthWordSolid(word: Bytes, auth: AuthInfoKind)
    requires EqIgnoreCase(word, AuthWord(auth))
    ensures |word| == 4 && forall i | 0 <= i < |word| :: !IsWs(word[i])
  {
    hide Solid;
    UpperMatchSolid(word, if auth == User then "USER" else "PASS");
    SolidHasNoWs(word);
  }

  lemma AuthWordSplits(args: Bytes, auth: AuthInfoKind, word: Bytes, blanks: Bytes, value: Bytes)
    requires AuthSpelled(args, auth, word, blanks, value) && value != [] && !IsWs(value[0])
    ensures WsIndex(args) == |word| && |word| == 4 && args[..|word|] == word && SkipWs(args[|word|..]) == value
  {
    hide SkipWs, WsIndex, Ascii, EqIgnoreCase, Solid;
    AuthWordSolid(word, auth);
    assert forall i | 0 <= i < |word| :: args[i] == word[i];
    assert args[|word|] == blanks[0] && args[|word|..] == blanks + value;
    WsIndexIs(args, |word|);
    SkipBlanks(blanks, value);
  }

  lemma AuthArgsComplete(args: Bytes, auth: AuthInfoKind, word: Bytes, blanks: Bytes, value: Bytes)
    requires AuthSpelled(args, auth, word, blanks, value) && ValidAuthValue(value) && !IsWs(value[0])
    ensures ClassifyAuthInfo(args) == KindOf(AuthInfo(auth, value))
  {
    hide Ascii, EqIgnoreCase, CommandTokens, SkipWs, WsIndex, ValidAuthValue, IsSasl;
    ValueIsSomething(value);
    AuthWordSplits(args, auth, word, blanks, value);
    Respects(word, AuthWord(auth), Ascii("USER"));
    Respects(word, AuthWord(auth), Ascii("PASS"));
    AuthWordsDiffer(auth);
  }

  /** AUTHINFO lines classified as USER or PASS are spelled so, and the value is one that reads
      back from a printed line. */
  lemma AuthIsSound(line: Bytes) returns (auth: AuthInfoKind, word: Bytes, blanks: Bytes, value: Bytes)
    requires Parse(line).kind.AuthInfoUser? || Parse(line).kind.AuthInfoPass?
    ensures Valid(AuthInfo(auth, value)) && Tidy(AuthInfo(auth, value)) && KindOf(AuthInfo(auth, value)) == Parse(line).kind
    ensures WellSpacedLine(line) && WordsOf(line) != [] && EqIgnoreCase(WordsOf(line)[0], Ascii("AUTHINFO"))
    ensures AuthSpelled(Parse(line).args, auth, word, blanks, value)
  {
    hide Parse, FindVerb, CommandTokens, ClassifyAuthInfo, SuitsDirect, ClassifyList, EqIgnoreCase, Ascii, TidyArgs, ValidAuthValue;
    var q := Parse(line);
    ParsedParts(line);
    WellSpacedParts(line);
    AuthKindsOfVerb(q.verb, q.args);
    auth, word, blanks, value := AuthArgsSound(q.args);
    VerbIsSpelled(q.verb, AuthInfo(auth, value));
    ArgsHaveNoFormFeed(line);
    assert TidyValue(value) by {
      ValueIsSomething(value);
      forall i | 0 <= i < |value| ensures value[i] != 12 { assert q.args[|word + blanks| + i] == value[i]; }
    }
  }

  /** An AUTHINFO line in any spelling and spacing with the value that it carries. */
  predicate AuthLineSpelled(line: Bytes, auth: AuthInfoKind, word: Bytes, blanks: Bytes, value: Bytes) {
    && WordsOf(line) != [] && EqIgnoreCase(WordsOf(line)[0], Ascii("AUTHINFO"))
    && AuthSpelled(Parse(line).args, auth, word, blanks, value) && ValidAuthValue(value) && !IsWs(value[0])
  }

  /** ... and every line that is spelled so is classified so. */
  lemma AuthIsComplete(line: Bytes, auth: AuthInfoKind, word: Bytes, blanks: Bytes, value: Bytes)
    requires WellSpacedLine(line) && |Parse(line).args| <= 497 && AuthLineSpelled(line, auth, word, blanks, value)
    ensures Parse(line).kind == KindOf(AuthInfo(auth, value))
  {
    hide Parse, FindVerb, CommandTokens, ClassifyAuthInfo, EqIgnoreCase, Ascii, TidyArgs, ValidAuthValue, AuthSpelled;
    var q := Parse(line);
    WellSpacedParts(line);
    AuthVerbFound(q.verb);
    AuthArgsComplete(q.args, auth, word, blanks, value);
  }

  // ----- AUTHINFO SASL -----

  /** The words AUTHINFO SASL, a mechanism, and perhaps an initial response. */
  predicate SaslSpelled(words: seq<Bytes>) {
    && 3 <= |words| <= 4 && EqIgnoreCase(words[0], Ascii("AUTHINFO")) && EqIgnoreCase(words[1], Ascii("SASL"))
    && Capabilities.ValidMechanism(words[2]) && (|words| == 4 ==> words[3] == [61] || P.ValidBase64(words[3]))
  }

  lemma SaslIsNoOther(word: Bytes)
    requires EqIgnoreCase(word, Ascii("SASL"))
    ensures !EqIgnoreCase(word, Ascii("USER")) && !EqIgnoreCase(word, Ascii("PASS"))
  {
    assert Upper(word[0]) == Upper(Ascii("SASL")[0]) == 83;
  }

  lemma SaslClassified(args: Bytes)
    requires TidyArgs(args)
    ensures ClassifyAuthInfo(args).AuthInfo? <==> IsSasl(CommandTokens(args))
  {
    hide Ascii, EqIgnoreCase, WsIndex, SkipWs, Capabilities.ValidMechanism, P.ValidBase64;
    if IsSasl(CommandTokens(args)) {
      assert CommandTokens([]) == [];
      FirstToken(args);
      SaslIsNoOther(args[..WsIndex(args)]);
    }
  }

  lemma AuthInfoOfVerb(verb: Bytes, args: Bytes)
    requires Classify(verb, args).AuthInfo?
    ensures FindVerb(verb, 0) == Some(AuthInfoCommand) && ClassifyAuthInfo(args).AuthInfo?
  {
    hide FindVerb, CommandTokens, ClassifyAuthInfo, EqIgnoreCase, Ascii, SuitsDirect;
    if FindVerb(verb, 0).Some? && FindVerb(verb, 0).value.Direct? {
      var i := FindVerbMeans(verb, 0);
      TableIsDirect(i);
    }
  }

  lemma SaslWords(verb: Bytes, tokens: seq<Bytes>)
    ensures SaslSpelled([verb] + tokens) <==> EqIgnoreCase(verb, Ascii("AUTHINFO")) && IsSasl(tokens)
  {
    hide Ascii, EqIgnoreCase, Capabilities.ValidMechanism, P.ValidBase64;
  }

  lemma AuthByVerb(verb: Bytes, args: Bytes)
    requires FindVerb(verb, 0) == Some(AuthInfoCommand)
    ensures Classify(verb, args) == ClassifyAuthInfo(args)
  {
    hide FindVerb, CommandTokens, ClassifyAuthInfo;
  }

  /** A line is of the SASL kind if and only if it is well spaced, has at most 4096 bytes and
      says AUTHINFO SASL with a mechanism and perhaps an initial response. */
  lemma SaslExactly(line: Bytes)
    ensures Parse(line).kind.AuthInfo? <==> SpacedLine(line) && |line| <= 4096 && SaslSpelled(WordsOf(line))
  {
    hide Parse, Classify, FindVerb, WordsOf, CommandTokens, ClassifyAuthInfo, EqIgnoreCase, Ascii, TidyArgs, IsSasl, SaslSpelled, SpacedLine;
    var q := Parse(line);
    if q.kind.AuthInfo? {
      ParsedParts(line);
      WellSpacedParts(line);
      AuthInfoOfVerb(q.verb, q.args);
      AuthVerbSpelled(q.verb);
      SaslClassified(q.args);
      SaslWords(q.verb, CommandTokens(q.args));
    }
    if SpacedLine(line) && |line| <= 4096 && SaslSpelled(WordsOf(line)) {
      WellSpacedParts(line);
      SaslWords(q.verb, CommandTokens(q.args));
      AuthVerbFound(q.verb);
      SaslClassified(q.args);
      AuthByVerb(q.verb, q.args);
    }
  }
}
