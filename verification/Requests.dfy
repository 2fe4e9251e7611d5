/** Client requests, the argument checks of their constructors, and their two printers. */
module Requests {
  import opened Wire
  import opened Text
  import P = Protocol
  import DotStuffing

  datatype ArticleRef = Current | Number(n: nat) | Id(id: Bytes)

  datatype ListKind = Active | ActiveTimes | Newsgroups | OverviewFmt | Headers | DistribPats

  datatype AuthInfoKind = User | Pass

  datatype Request =
    | Article(ref: ArticleRef) | Body(ref: ArticleRef) | Head(ref: ArticleRef) | Stat(ref: ArticleRef)
    | ListVariant(list: ListKind, pattern: Option<Bytes>)
    | Group(group: Bytes)
    | ListGroup(maybeGroup: Option<Bytes>, range: Option<Bytes>)
    | Last | Next
    | Over(selector: Option<Bytes>) | Xover(selector: Option<Bytes>)
    | Hdr(header: Bytes, selector: Option<Bytes>) | Xhdr(header: Bytes, selector: Option<Bytes>)
    | NewGroups(date: Bytes, time: Bytes, gmt: bool)
    | NewNews(wildmat: Bytes, date: Bytes, time: Bytes, gmt: bool)
    | Post
    | Ihave(messageId: Bytes) | Check(messageId: Bytes) | TakeThis(messageId: Bytes, article: Bytes)
    | AuthInfo(auth: AuthInfoKind, value: Bytes)
    | StartTls | List | Help | Capabilities(keyword: Option<Bytes>) | Date | ModeReader | ModeStream | Quit

  function KindOfList(list: ListKind): (kind: P.RequestKind) {
    match list
    case Active => P.RequestKind.ListActive
    case ActiveTimes => P.RequestKind.ListActiveTimes
    case Newsgroups => P.RequestKind.ListNewsgroups
    case OverviewFmt => P.RequestKind.ListOverviewFmt
    case Headers => P.RequestKind.ListHeaders
    case DistribPats => P.RequestKind.ListDistribPats
  }

  function KindOf(r: Request): (kind: P.RequestKind) {
    match r
    case Article(_) => P.RequestKind.Article
    case Body(_) => P.RequestKind.Body
    case Head(_) => P.RequestKind.Head
    case Stat(_) => P.RequestKind.Stat
    case ListVariant(list, _) => KindOfList(list)
    case Group(_) => P.RequestKind.Group
    case ListGroup(_, _) => P.RequestKind.ListGroup
    case Last => P.RequestKind.Last
    case Next => P.RequestKind.Next
    case Over(_) => P.RequestKind.Over
    case Xover(_) => P.RequestKind.Xover
    case Hdr(_, _) => P.RequestKind.Hdr
    case Xhdr(_, _) => P.RequestKind.Xhdr
    case NewGroups(_, _, _) => P.RequestKind.NewGroups
    case NewNews(_, _, _, _) => P.RequestKind.NewNews
    case Post => P.RequestKind.Post
    case Ihave(_) => P.RequestKind.Ihave
    case Check(_) => P.RequestKind.Check
    case TakeThis(_, _) => P.RequestKind.TakeThis
    case AuthInfo(auth, _) => if auth == User then P.RequestKind.AuthInfoUser else P.RequestKind.AuthInfoPass
    case StartTls => P.RequestKind.StartTls
    case List => P.RequestKind.List
    case Help => P.RequestKind.Help
    case Capabilities(_) => P.RequestKind.Capabilities
    case Date => P.RequestKind.Date
    case ModeReader => P.RequestKind.ModeReader
    case ModeStream => P.RequestKind.ModeStream
    case Quit => P.RequestKind.Quit
  }

  // ----- arguments -----

  predicate ValidHeaderName(s: Bytes) {
    var name := if s != [] && s[0] == 58 then s[1..] else s;
    name != [] && forall i | 0 <= i < |name| :: 0x21 <= name[i] <= 0x39 || 0x3B <= name[i] <= 0x7E
  }

  /** One to sixteen digits, from 1 to the largest article number. */
  function ArticleNumberToken(s: Bytes): (r: Option<nat>) {
    if s == [] || |s| > 16 || !AllDigits(s) then None
    else if 0 < DecimalValue(s) <= MAX_ARTICLE_NUMBER then Some(DecimalValue(s)) else None
  }

  /** A number, or a range whose end may be left open. */
  predicate ValidRange(s: Bytes) {
    var dash := IndexOf(s, 45);
    if dash == |s| then ArticleNumberToken(s).Some?
    else ArticleNumberToken(s[..dash]).Some? && (s[dash + 1..] == [] || ArticleNumberToken(s[dash + 1..]).Some?)
  }

  predicate ValidSelector(s: Bytes) {
    if s != [] && s[0] == 60 then ValidMessageId(s) else ValidRange(s)
  }

  predicate ValidDate(s: Bytes) {
    && (|s| == 6 || |s| == 8) && AllDigits(s)
    && 1 <= P.TwoDigits(s, |s| - 4) <= 12 && 1 <= P.TwoDigits(s, |s| - 2) <= 31
    && (|s| == 8 ==> 1900 <= DecimalValue(s[..4]))
  }

  predicate ValidTime(s: Bytes) {
    && |s| == 6 && AllDigits(s)
    && P.TwoDigits(s, 0) <= 23 && P.TwoDigits(s, 2) <= 59 && P.TwoDigits(s, 4) <= 60
  }

  /** The parts between commas. */
  function SplitCommas(s: Bytes): (r: seq<Bytes>) {
    var comma := IndexOf(s, 44);
    if comma == |s| then [s] else [s[..comma]] + SplitCommas(s[comma + 1..])
  }

  predicate ValidPattern(p: Bytes) {
    p != [] && forall i | 0 <= i < |p| :: p[i] != 33 && p[i] != 44 && p[i] != 91 && p[i] != 92 && p[i] != 93
  }

  /** Patterns between commas, each but the first with an optional "!". */
  predicate ValidWildmat(s: Bytes) {
    && IsUtf8(s) && s != [] && !HasBom(s)
    && (forall c | c in Chars(s).value && c < 0x80 :: 0x21 <= c <= 0x7E)
    && var parts := SplitCommas(s);
       forall i | 0 <= i < |parts| ::
         ValidPattern(if i > 0 && parts[i] != [] && parts[i][0] == 33 then parts[i][1..] else parts[i])
  }

  predicate ValidAuthValue(s: Bytes) { s != [] && forall i | 0 <= i < |s| :: s[i] != 0 && s[i] != CR && s[i] != LF }

  predicate ValidRef(ref: ArticleRef) {
    match ref
    case Current => true
    case Number(n) => 0 < n <= MAX_ARTICLE_NUMBER
    case Id(id) => ValidMessageId(id)
  }

  predicate Maybe(arg: Option<Bytes>, ok: Bytes -> bool) { arg.Some? ==> ok(arg.value) }

  /** Requests that the public constructors make. */
  predicate Valid(r: Request) {
    match r
    case Article(ref) => ValidRef(ref)
    case Body(ref) => ValidRef(ref)
    case Head(ref) => ValidRef(ref)
    case Stat(ref) => ValidRef(ref)
    case ListVariant(list, pattern) =>
      Maybe(pattern, ValidWildmat) && (pattern.Some? ==> list == Active || list == ActiveTimes || list == Newsgroups)
    case Group(group) => ValidGroupName(group)
    case ListGroup(group, range) =>
      Maybe(group, ValidGroupName) && Maybe(range, ValidRange) && (range.Some? ==> group.Some?)
    case Over(selector) => Maybe(selector, ValidSelector)
    case Xover(selector) => Maybe(selector, ValidRange)
    case Hdr(header, selector) => ValidHeaderName(header) && Maybe(selector, ValidSelector)
    case Xhdr(header, selector) => ValidHeaderName(header) && Maybe(selector, ValidSelector)
    case NewGroups(date, time, _) => ValidDate(date) && ValidTime(time)
    case NewNews(wildmat, date, time, _) => ValidWildmat(wildmat) && ValidDate(date) && ValidTime(time)
    case Ihave(id) => ValidMessageId(id)
    case Check(id) => ValidMessageId(id)
    case TakeThis(id, _) => ValidMessageId(id)
    case AuthInfo(_, value) => ValidAuthValue(value)
    case Capabilities(keyword) => Maybe(keyword, ValidKeyword)
    case _ => true
  }

  // ----- the printer that appends to a buffer -----

  const SP: Bytes := [SPACE]

  function OptionalArg(arg: Option<Bytes>): (r: Bytes) { if arg.Some? then SP + arg.value else [] }

  function RefArg(ref: ArticleRef): (r: Option<Bytes>) {
    match ref
    case Current => None
    case Number(n) => Some(Digits(n))
    case Id(id) => Some(id)
  }

  function ListWord(list: ListKind): (r: Bytes) {
    match list
    case Active => Ascii("ACTIVE")
    case ActiveTimes => Ascii("ACTIVE.TIMES")
    case Newsgroups => Ascii("NEWSGROUPS")
    case OverviewFmt => Ascii("OVERVIEW.FMT")
    case Headers => Ascii("HEADERS")
    case DistribPats => Ascii("DISTRIB.PATS")
  }

  function AuthWord(auth: AuthInfoKind): (r: Bytes) { if auth == User then Ascii("USER") else Ascii("PASS") }

  /** The bytes of a request. */
  function WireOf(r: Request): (wire: Bytes) {
    match r
    case Article(ref) => Ascii("ARTICLE") + OptionalArg(RefArg(ref)) + CRLF
    case Body(ref) => Ascii("BODY") + OptionalArg(RefArg(ref)) + CRLF
    case Head(ref) => Ascii("HEAD") + OptionalArg(RefArg(ref)) + CRLF
    case Stat(ref) => Ascii("STAT") + OptionalArg(RefArg(ref)) + CRLF
    case ListVariant(list, pattern) => Ascii("LIST ") + ListWord(list) + OptionalArg(pattern) + CRLF
    case Group(group) => Ascii("GROUP ") + group + CRLF
    case ListGroup(group, range) =>
      Ascii("LISTGROUP") + OptionalArg(group) + (if group.Some? then OptionalArg(range) else []) + CRLF
    case Last => Ascii("LAST") + CRLF
    case Next => Ascii("NEXT") + CRLF
    case Over(selector) => Ascii("OVER") + OptionalArg(selector) + CRLF
    case Xover(selector) => Ascii("XOVER") + OptionalArg(selector) + CRLF
    case Hdr(header, selector) => Ascii("HDR") + SP + header + OptionalArg(selector) + CRLF
    case Xhdr(header, selector) => Ascii("XHDR") + SP + header + OptionalArg(selector) + CRLF
    case NewGroups(date, time, gmt) => Ascii("NEWGROUPS ") + date + SP + time + (if gmt then Ascii(" GMT") else []) + CRLF
    case NewNews(wildmat, date, time, gmt) =>
      Ascii("NEWNEWS ") + wildmat + SP + date + SP + time + (if gmt then Ascii(" GMT") else []) + CRLF
    case Post => Ascii("POST") + CRLF
    case Ihave(id) => Ascii("IHAVE ") + id + CRLF
    case Check(id) => Ascii("CHECK ") + id + CRLF
    case TakeThis(id, article) => Ascii("TAKETHIS ") + id + CRLF + DotStuffing.Encode(article)
    case AuthInfo(auth, value) => Ascii("AUTHINFO ") + AuthWord(auth) + SP + value + CRLF
    case StartTls => Ascii("STARTTLS") + CRLF
    case List => Ascii("LIST") + CRLF
    case Help => Ascii("HELP") + CRLF
    case Capabilities(keyword) => if keyword.Some? then Ascii("CAPABILITIES ") + keyword.value + CRLF else Ascii("CAPABILITIES") + CRLF
    case Date => Ascii("DATE") + CRLF
    case ModeReader => Ascii("MODE READER") + CRLF
    case ModeStream => Ascii("MODE STREAM") + CRLF
    case Quit => Ascii("QUIT") + CRLF
  }

  // ----- the printer that hands slices to the socket -----

  function OptionalSlices(verb: Bytes, arg: Option<Bytes>): (slices: seq<Bytes>) {
    if arg.Some? then [verb, SP, arg.value, CRLF] else [verb, CRLF]
  }

  function HeaderSlices(verb: Bytes, header: Bytes, selector: Option<Bytes>): (slices: seq<Bytes>) {
    if selector.Some? then [verb, SP, header, SP, selector.value, CRLF] else [verb, SP, header, CRLF]
  }

  function GmtSuffix(gmt: bool): (r: Bytes) { if gmt then Ascii(" GMT") + CRLF else CRLF }

  /** The slices of a request's command line, in the order they are written. */
  function CommandSlices(r: Request): (slices: seq<Bytes>) {
    match r
    case Article(ref) => OptionalSlices(Ascii("ARTICLE"), RefArg(ref))
    case Body(ref) => OptionalSlices(Ascii("BODY"), RefArg(ref))
    case Head(ref) => OptionalSlices(Ascii("HEAD"), RefArg(ref))
    case Stat(ref) => OptionalSlices(Ascii("STAT"), RefArg(ref))
    case ListVariant(list, pattern) =>
      if pattern.Some? then [Ascii("LIST "), ListWord(list), SP, pattern.value, CRLF] else [Ascii("LIST "), ListWord(list), CRLF]
    case Group(group) => [Ascii("GROUP "), group, CRLF]
    case ListGroup(group, range) =>
      if group.None? then [Ascii("LISTGROUP"), CRLF]
      else if range.None? then [Ascii("LISTGROUP "), group.value, CRLF]
      else [Ascii("LISTGROUP "), group.value, SP, range.value, CRLF]
    case Last => [Ascii("LAST"), CRLF]
    case Next => [Ascii("NEXT"), CRLF]
    case Over(selector) => OptionalSlices(Ascii("OVER"), selector)
    case Xover(selector) => OptionalSlices(Ascii("XOVER"), selector)
    case Hdr(header, selector) => HeaderSlices(Ascii("HDR"), header, selector)
    case Xhdr(header, selector) => HeaderSlices(Ascii("XHDR"), header, selector)
    case NewGroups(date, time, gmt) => [Ascii("NEWGROUPS "), date, SP, time, GmtSuffix(gmt)]
    case NewNews(wildmat, date, time, gmt) => [Ascii("NEWNEWS "), wildmat, SP, date, SP, time, GmtSuffix(gmt)]
    case Post => [Ascii("POST"), CRLF]
    case Ihave(id) => [Ascii("IHAVE "), id, CRLF]
    case Check(id) => [Ascii("CHECK "), id, CRLF]
    case TakeThis(id, _) => [Ascii("TAKETHIS "), id, CRLF]
    case AuthInfo(auth, value) => [Ascii("AUTHINFO "), AuthWord(auth), SP, value, CRLF]
    case StartTls => [Ascii("STARTTLS"), CRLF]
    case List => [Ascii("LIST"), CRLF]
    case Help => [Ascii("HELP"), CRLF]
    case Capabilities(keyword) => if keyword.Some? then [Ascii("CAPABILITIES "), keyword.value, CRLF] else [Ascii("CAPABILITIES"), CRLF]
    case Date => [Ascii("DATE"), CRLF]
    case ModeReader => [Ascii("MODE READER"), CRLF]
    case ModeStream => [Ascii("MODE STREAM"), CRLF]
    case Quit => [Ascii("QUIT"), CRLF]
  }

  /** What follows the command line. */
  function PayloadOf(r: Request): (payload: Bytes) { if r.TakeThis? then DotStuffing.Encode(r.article) else [] }

  // ----- a request as a verb and its arguments -----

  function VerbOf(r: Request): (verb: Bytes) {
    match r
    case Article(_) => Ascii("ARTICLE")
    case Body(_) => Ascii("BODY")
    case Head(_) => Ascii("HEAD")
    case Stat(_) => Ascii("STAT")
    case ListVariant(_, _) => Ascii("LIST")
    case Group(_) => Ascii("GROUP")
    case ListGroup(_, _) => Ascii("LISTGROUP")
    case Last => Ascii("LAST")
    case Next => Ascii("NEXT")
    case Over(_) => Ascii("OVER")
    case Xover(_) => Ascii("XOVER")
    case Hdr(_, _) => Ascii("HDR")
    case Xhdr(_, _) => Ascii("XHDR")
    case NewGroups(_, _, _) => Ascii("NEWGROUPS")
    case NewNews(_, _, _, _) => Ascii("NEWNEWS")
    case Post => Ascii("POST")
    case Ihave(_) => Ascii("IHAVE")
    case Check(_) => Ascii("CHECK")
    case TakeThis(_, _) => Ascii("TAKETHIS")
    case AuthInfo(_, _) => Ascii("AUTHINFO")
    case StartTls => Ascii("STARTTLS")
    case List => Ascii("LIST")
    case Help => Ascii("HELP")
    case Capabilities(_) => Ascii("CAPABILITIES")
    case Date => Ascii("DATE")
    case ModeReader => Ascii("MODE")
    case ModeStream => Ascii("MODE")
    case Quit => Ascii("QUIT")
  }

  function Arg(arg: Option<Bytes>): (args: seq<Bytes>) { if arg.Some? then [arg.value] else [] }

  function Gmt(gmt: bool): (args: seq<Bytes>) { if gmt then [Ascii("GMT")] else [] }

  function ArgsOf(r: Request): (args: seq<Bytes>) {
    match r
    case Article(ref) => Arg(RefArg(ref))
    case Body(ref) => Arg(RefArg(ref))
    case Head(ref) => Arg(RefArg(ref))
    case Stat(ref) => Arg(RefArg(ref))
    case ListVariant(list, pattern) => [ListWord(list)] + Arg(pattern)
    case Group(group) => [group]
    case ListGroup(group, range) => if group.Some? then [group.value] + Arg(range) else []
    case Over(selector) => Arg(selector)
    case Xover(selector) => Arg(selector)
    case Hdr(header, selector) => [header] + Arg(selector)
    case Xhdr(header, selector) => [header] + Arg(selector)
    case NewGroups(date, time, gmt) => [date, time] + Gmt(gmt)
    case NewNews(wildmat, date, time, gmt) => [wildmat, date, time] + Gmt(gmt)
    case Ihave(id) => [id]
    case Check(id) => [id]
    case TakeThis(id, _) => [id]
    case AuthInfo(auth, value) => [AuthWord(auth), value]
    case Capabilities(keyword) => Arg(keyword)
    case ModeReader => [Ascii("READER")]
    case ModeStream => [Ascii("STREAM")]
    case _ => []
  }

  /** Each argument with a space in front. */
  function Spaced(args: seq<Bytes>): (r: Bytes) {
    if args == [] then [] else SP + args[0] + Spaced(args[1..])
  }

  /** The command line: the verb, the arguments, CRLF. */
  function CommandLine(r: Request): (line: Bytes) { VerbOf(r) + Spaced(ArgsOf(r)) + CRLF }

  // ----- the printers agree -----

  lemma SpacedNone()
    ensures Spaced([]) == []
  {
  }

  lemma SpacedCons(verb: Bytes, arg: Bytes, args: seq<Bytes>)
    ensures verb + Spaced([arg] + args) == (verb + SP + arg) + Spaced(args)
  {
    assert ([arg] + args)[1..] == args;
  }

  lemma SpacedFew(verb: Bytes, a: Bytes, b: Bytes, c: Bytes, d: Bytes)
    ensures verb + Spaced([]) == verb
    ensures verb + Spaced([a]) == verb + SP + a
    ensures verb + Spaced([a, b]) == verb + SP + a + SP + b
    ensures verb + Spaced([a, b, c]) == verb + SP + a + SP + b + SP + c
    ensures verb + Spaced([a, b, c, d]) == verb + SP + a + SP + b + SP + c + SP + d
  {
    hide Spaced;
    SpacedNone();
    assert [a] + [] == [a] && [b] + [] == [b] && [c] + [] == [c] && [d] + [] == [d];
    assert [a] + [b] == [a, b] && [b] + [c] == [b, c] && [c] + [d] == [c, d];
    assert [a] + [b, c] == [a, b, c] && [b] + [c, d] == [b, c, d] && [a] + [b, c, d] == [a, b, c, d];
    SpacedCons(verb, a, []);
    SpacedCons(verb, a, [b]);
    SpacedCons(verb, a, [b, c]);
    SpacedCons(verb, a, [b, c, d]);
    SpacedCons(verb + SP + a, b, []);
    SpacedCons(verb + SP + a, b, [c]);
    SpacedCons(verb + SP + a, b, [c, d]);
    SpacedCons(verb + SP + a + SP + b, c, []);
    SpacedCons(verb + SP + a + SP + b, c, [d]);
    SpacedCons(verb + SP + a + SP + b + SP + c, d, []);
  }

  lemma SpaceAfter(word: string, spaced: string)
    requires spaced == word + " "
    ensures Ascii(spaced) == Ascii(word) + SP
  {
  }

  lemma SpaceBetween(word: string, next: string, both: string)
    requires both == word + " " + next
    ensures Ascii(both) == Ascii(word) + SP + Ascii(next)
  {
  }

  lemma ConcatSnoc(parts: seq<Bytes>)
    requires parts != []
    ensures Concat(parts) == Concat(parts[..|parts| - 1]) + parts[|parts| - 1]
  {
    hide Concat;
    ConcatAppend(parts[..|parts| - 1], [parts[|parts| - 1]]);
    ConcatOne(parts[|parts| - 1]);
    assert parts == parts[..|parts| - 1] + [parts[|parts| - 1]];
  }

  /** A few slices, joined from the left. */
  lemma ConcatFew(parts: seq<Bytes>)
    ensures |parts| == 2 ==> Concat(parts) == parts[0] + parts[1]
    ensures |parts| == 3 ==> Concat(parts) == parts[0] + parts[1] + parts[2]
    ensures |parts| == 4 ==> Concat(parts) == parts[0] + parts[1] + parts[2] + parts[3]
    ensures |parts| == 5 ==> Concat(parts) == parts[0] + parts[1] + parts[2] + parts[3] + parts[4]
    ensures |parts| == 6 ==> Concat(parts) == parts[0] + parts[1] + parts[2] + parts[3] + parts[4] + parts[5]
    ensures |parts| == 7 ==> Concat(parts) == parts[0] + parts[1] + parts[2] + parts[3] + parts[4] + parts[5] + parts[6]
  {
    hide Concat;
    if |parts| == 2 {
      ConcatSnoc(parts);
      ConcatOne(parts[0]);
      assert parts[..1] == [parts[0]];
    } else if 2 < |parts| <= 7 {
      ConcatFew(parts[..|parts| - 1]);
      ConcatSnoc(parts);
    }
  }

  lemma OptionalLine(verb: Bytes, arg: Option<Bytes>)
    ensures verb + OptionalArg(arg) + CRLF == verb + Spaced(Arg(arg)) + CRLF == Concat(OptionalSlices(verb, arg))
  {
    hide Spaced, Concat;
    if arg.Some? {
      SpacedFew(verb, arg.value, [], [], []);
      ConcatFew([verb, SP, arg.value, CRLF]);
      Assoc(verb, SP, arg.value);
    } else {
      SpacedNone();
      ConcatFew([verb, CRLF]);
    }
  }

  lemma SimpleLine(verb: Bytes)
    ensures verb + CRLF == verb + Spaced([]) + CRLF == Concat([verb, CRLF])
  {
    hide Spaced, Concat;
    SpacedNone();
    ConcatFew([verb, CRLF]);
  }

  lemma OneLine(verb: Bytes, spaced: Bytes, a: Bytes)
    requires spaced == verb + SP
    ensures spaced + a + CRLF == verb + Spaced([a]) + CRLF == Concat([spaced, a, CRLF])
  {
    hide Spaced, Concat;
    SpacedFew(verb, a, [], [], []);
    ConcatFew([spaced, a, CRLF]);
  }

  lemma TwoLine(verb: Bytes, spaced: Bytes, a: Bytes, b: Bytes)
    requires spaced == verb + SP
    ensures spaced + a + SP + b + CRLF == verb + Spaced([a, b]) + CRLF == Concat([spaced, a, SP, b, CRLF])
  {
    hide Spaced, Concat;
    SpacedFew(verb, a, b, [], []);
    ConcatFew([spaced, a, SP, b, CRLF]);
  }

  lemma HeaderLine(verb: Bytes, header: Bytes, selector: Option<Bytes>)
    ensures verb + SP + header + OptionalArg(selector) + CRLF
         == verb + Spaced([header] + Arg(selector)) + CRLF == Concat(HeaderSlices(verb, header, selector))
  {
    hide Spaced, Concat;
    if selector.Some? {
      SpacedFew(verb, header, selector.value, [], []);
      assert [header] + Arg(selector) == [header, selector.value];
      ConcatFew([verb, SP, header, SP, selector.value, CRLF]);
      Assoc(verb + SP + header, SP, selector.value);
    } else {
      SpacedFew(verb, header, [], [], []);
      assert [header] + Arg(selector) == [header];
      ConcatFew([verb, SP, header, CRLF]);
    }
  }

  lemma WithGmt(line: Bytes, gmt: bool)
    ensures line + (if gmt then Ascii(" GMT") else []) + CRLF == line + GmtSuffix(gmt)
    ensures gmt ==> line + Ascii(" GMT") == line + SP + Ascii("GMT")
  {
    assert " GMT" == "" + " " + "GMT";
    SpaceBetween("", "GMT", " GMT");
  }

  lemma DateLine(verb: Bytes, spaced: Bytes, date: Bytes, time: Bytes, gmt: bool)
    requires spaced == verb + SP
    ensures spaced + date + SP + time + (if gmt then Ascii(" GMT") else []) + CRLF
         == verb + Spaced([date, time] + Gmt(gmt)) + CRLF == Concat([spaced, date, SP, time, GmtSuffix(gmt)])
  {
    hide Spaced, Concat, Ascii, GmtSuffix;
    SpacedFew(verb, date, time, Ascii("GMT"), []);
    assert [date, time] + Gmt(gmt) == if gmt then [date, time, Ascii("GMT")] else [date, time];
    ConcatFew([spaced, date, SP, time, GmtSuffix(gmt)]);
    WithGmt(spaced + date + SP + time, gmt);
  }

  lemma NewsLine(verb: Bytes, spaced: Bytes, wildmat: Bytes, date: Bytes, time: Bytes, gmt: bool)
    requires spaced == verb + SP
    ensures spaced + wildmat + SP + date + SP + time + (if gmt then Ascii(" GMT") else []) + CRLF
         == verb + Spaced([wildmat, date, time] + Gmt(gmt)) + CRLF
         == Concat([spaced, wildmat, SP, date, SP, time, GmtSuffix(gmt)])
  {
    hide Spaced, Concat, Ascii, GmtSuffix;
    SpacedFew(verb, wildmat, date, time, Ascii("GMT"));
    assert [wildmat, date, time] + Gmt(gmt) == if gmt then [wildmat, date, time, Ascii("GMT")] else [wildmat, date, time];
    ConcatFew([spaced, wildmat, SP, date, SP, time, GmtSuffix(gmt)]);
    WithGmt(spaced + wildmat + SP + date + SP + time, gmt);
  }

  lemma ListLine(list: ListKind, pattern: Option<Bytes>)
    ensures WireOf(ListVariant(list, pattern)) == CommandLine(ListVariant(list, pattern)) == Concat(CommandSlices(ListVariant(list, pattern)))
  {
    hide Spaced, Concat, Ascii, ListWord;
    SpaceAfter("LIST", "LIST ");
    var verb, word := Ascii("LIST "), ListWord(list);
    if pattern.Some? {
      TwoLine(Ascii("LIST"), verb, word, pattern.value);
      Assoc(verb + word, SP, pattern.value);
      assert [word] + Arg(pattern) == [word, pattern.value];
    } else {
      OneLine(Ascii("LIST"), verb, word);
      assert [word] + Arg(pattern) == [word];
    }
  }

  lemma ListGroupLine(group: Option<Bytes>, range: Option<Bytes>)
    ensures WireOf(ListGroup(group, range)) == CommandLine(ListGroup(group, range)) == Concat(CommandSlices(ListGroup(group, range)))
  {
    hide Spaced, Concat, Ascii;
    SpaceAfter("LISTGROUP", "LISTGROUP ");
    var verb := Ascii("LISTGROUP");
    if group.None? {
      SimpleLine(verb);
    } else {
      Assoc(verb, SP, group.value);
      if range.Some? {
        TwoLine(verb, Ascii("LISTGROUP "), group.value, range.value);
        Assoc(verb + SP + group.value, SP, range.value);
        assert [group.value] + Arg(range) == [group.value, range.value];
      } else {
        OneLine(verb, Ascii("LISTGROUP "), group.value);
        assert [group.value] + Arg(range) == [group.value];
      }
    }
  }

  predicate Printed(r: Request) {
    WireOf(r) == CommandLine(r) + PayloadOf(r) && Concat(CommandSlices(r)) == CommandLine(r)
  }

  lemma OneArgPrinted(r: Request)
    requires r.Group? || r.Ihave? || r.Check? || r.TakeThis?
    ensures Printed(r)
  {
    hide Spaced, Concat, Ascii, DotStuffing.Encode;
    match r
    case Group(group) => SpaceAfter("GROUP", "GROUP "); OneLine(Ascii("GROUP"), Ascii("GROUP "), group);
    case Ihave(id) => SpaceAfter("IHAVE", "IHAVE "); OneLine(Ascii("IHAVE"), Ascii("IHAVE "), id);
    case Check(id) => SpaceAfter("CHECK", "CHECK "); OneLine(Ascii("CHECK"), Ascii("CHECK "), id);
    case TakeThis(id, article) => SpaceAfter("TAKETHIS", "TAKETHIS "); OneLine(Ascii("TAKETHIS"), Ascii("TAKETHIS "), id);
  }

  lemma SeveralArgsPrinted(r: Request)
    requires r.NewGroups? || r.NewNews? || r.AuthInfo?
    ensures Printed(r)
  {
    hide Spaced, Concat, Ascii, AuthWord, Gmt, GmtSuffix;
    match r
    case NewGroups(date, time, gmt) =>
      SpaceAfter("NEWGROUPS", "NEWGROUPS ");
      DateLine(Ascii("NEWGROUPS"), Ascii("NEWGROUPS "), date, time, gmt);
    case NewNews(wildmat, date, time, gmt) =>
      SpaceAfter("NEWNEWS", "NEWNEWS ");
      NewsLine(Ascii("NEWNEWS"), Ascii("NEWNEWS "), wildmat, date, time, gmt);
    case AuthInfo(auth, value) =>
      SpaceAfter("AUTHINFO", "AUTHINFO ");
      TwoLine(Ascii("AUTHINFO"), Ascii("AUTHINFO "), AuthWord(auth), value);
  }

  lemma ModeLine(word: string, both: string)
    requires both == "MODE" + " " + word
    ensures Ascii(both) + CRLF == Ascii("MODE") + Spaced([Ascii(word)]) + CRLF == Concat([Ascii(both), CRLF])
  {
    hide Spaced, Concat, Ascii;
    SpaceBetween("MODE", word, both);
    SpacedFew(Ascii("MODE"), Ascii(word), [], [], []);
    ConcatFew([Ascii(both), CRLF]);
  }

  lemma ModePrinted(r: Request)
    requires r.ModeReader? || r.ModeStream?
    ensures Printed(r)
  {
    hide Spaced, Concat, Ascii;
    if r.ModeReader? { ModeLine("READER", "MODE READER"); } else { ModeLine("STREAM", "MODE STREAM"); }
  }

  lemma OptionalArgsPrinted(r: Request)
    requires r.Article? || r.Body? || r.Head? || r.Stat? || r.Over? || r.Xover? || r.Hdr? || r.Xhdr?
    ensures Printed(r)
  {
    hide Spaced, Concat, Ascii, RefArg, OptionalSlices, HeaderSlices, OptionalArg, Arg;
    match r
    case Article(ref) => OptionalLine(Ascii("ARTICLE"), RefArg(ref));
    case Body(ref) => OptionalLine(Ascii("BODY"), RefArg(ref));
    case Head(ref) => OptionalLine(Ascii("HEAD"), RefArg(ref));
    case Stat(ref) => OptionalLine(Ascii("STAT"), RefArg(ref));
    case Over(selector) => OptionalLine(Ascii("OVER"), selector);
    case Xover(selector) => OptionalLine(Ascii("XOVER"), selector);
    case Hdr(header, selector) => HeaderLine(Ascii("HDR"), header, selector);
    case Xhdr(header, selector) => HeaderLine(Ascii("XHDR"), header, selector);
  }

  predicate IsSimple(r: Request) {
    r.Last? || r.Next? || r.Post? || r.StartTls? || r.List? || r.Help? || r.Date? || r.Quit?
  }

  lemma SimplePrinted(r: Request)
    requires IsSimple(r)
    ensures Printed(r)
  {
    hide Spaced, Concat, Ascii;
    SimpleLine(VerbOf(r));
  }

  lemma CapabilitiesLine(keyword: Option<Bytes>)
    ensures WireOf(Capabilities(keyword)) == CommandLine(Capabilities(keyword)) == Concat(CommandSlices(Capabilities(keyword)))
  {
    hide Spaced, Concat, Ascii;
    if keyword.Some? {
      SpaceAfter("CAPABILITIES", "CAPABILITIES ");
      OneLine(Ascii("CAPABILITIES"), Ascii("CAPABILITIES "), keyword.value);
    } else {
      SimpleLine(Ascii("CAPABILITIES"));
    }
  }

  /** Both printers put the same bytes on the wire: the verb, the arguments separated by
      single spaces, CRLF, and for TAKETHIS the dot-stuffed article. */
  lemma PrintersAgree(r: Request)
    ensures WireOf(r) == CommandLine(r) + PayloadOf(r)
    ensures Concat(CommandSlices(r)) == CommandLine(r)
  {
    hide WireOf, CommandLine, CommandSlices, Concat, DotStuffing.Encode;
    if r.ListVariant? { ListLine(r.list, r.pattern); }
    else if r.ListGroup? { ListGroupLine(r.maybeGroup, r.range); }
    else if r.Capabilities? { CapabilitiesLine(r.keyword); }
    else if IsSimple(r) { SimplePrinted(r); }
    else if r.Group? || r.Ihave? || r.Check? || r.TakeThis? { OneArgPrinted(r); }
    else if r.NewGroups? || r.NewNews? || r.AuthInfo? { SeveralArgsPrinted(r); }
    else if r.ModeReader? || r.ModeStream? { ModePrinted(r); }
    else { OptionalArgsPrinted(r); }
  }
}
