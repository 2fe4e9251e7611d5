/** Request kinds, how they share a connection, and which responses each may get. */
module Protocol {
  import opened Wire
  import opened Text

  datatype RequestKind =
    | Article | Body | Head | Stat
    | ListActive | ListActiveTimes | ListNewsgroups | ListOverviewFmt | ListHeaders | ListDistribPats
    | Group | ListGroup | Last | Next | List | Help | Capabilities | Date
    | Over | Xover | Hdr | Xhdr | NewGroups | NewNews
    | Post | Ihave | Check | TakeThis
    | AuthInfoUser | AuthInfoPass | AuthInfo | StartTls | ModeReader | ModeStream | Quit
    | Unknown

  datatype CommandCoordination = Coordination(allowsFollowingPipeline: bool, requiresExclusiveConnection: bool,
                                              changesSessionState: bool, entersContinuation: bool)

  /** Pipeline and session rules of a command (section 3.5 of RFC 3977). */
  function CoordinationOf(kind: RequestKind): (r: CommandCoordination) {
    match kind
    case Group | ListGroup | Last | Next => Coordination(true, false, true, false)
    case Post | Ihave => Coordination(false, true, false, true)
    case AuthInfo => Coordination(false, true, true, true)
    case AuthInfoUser | AuthInfoPass => Coordination(false, true, true, false)
    case StartTls => Coordination(false, true, true, false)
    case ModeReader => Coordination(false, false, true, false)
    case Quit => Coordination(false, true, true, false)
    case Unknown => Coordination(false, false, false, false)
    case _ => Coordination(true, false, false, false)
  }

  predicate IsExclusive(kind: RequestKind) { CoordinationOf(kind).requiresExclusiveConnection }

  predicate RequiresBarrier(kind: RequestKind) { !CoordinationOf(kind).allowsFollowingPipeline }

  predicate RequiresCapabilities(kind: RequestKind) {
    match kind
    case Post | Ihave | Check | TakeThis | AuthInfoUser | AuthInfoPass | StartTls => true
    case Over | Xover | Hdr | Xhdr | NewGroups | NewNews => true
    case _ => false
  }

  predicate InvalidatesCapabilities(kind: RequestKind) {
    kind.AuthInfoUser? || kind.AuthInfoPass? || kind.AuthInfo? || kind.ModeReader? || kind.StartTls?
  }

  predicate ResponseInvalidatesCapabilities(kind: RequestKind, status: nat) {
    && InvalidatesCapabilities(kind)
    && (kind.AuthInfoUser? || kind.AuthInfoPass? || kind.AuthInfo? ==> status == 281 || status == 283)
  }

  /** The reader's go-ahead for sending the article. */
  predicate AcceptsArticle(kind: RequestKind, status: nat) {
    (kind.Post? && status == 340) || (kind.Ihave? && status == 335)
  }

  /** The coordination facts the engine depends on. */
  lemma CoordinationFacts(kind: RequestKind)
    ensures IsExclusive(kind) ==> RequiresBarrier(kind)
    ensures InvalidatesCapabilities(kind) ==> RequiresBarrier(kind)
    ensures CoordinationOf(kind).entersContinuation ==> IsExclusive(kind)
    ensures IsExclusive(kind) <==>
            kind in {Post, Ihave, AuthInfo, AuthInfoUser, AuthInfoPass, StartTls, Quit}
    ensures RequiresBarrier(kind) && !IsExclusive(kind) <==> kind == ModeReader || kind == Unknown
    ensures CoordinationOf(kind).entersContinuation <==> kind in {Post, Ihave, AuthInfo}
    ensures CoordinationOf(kind).changesSessionState <==>
            kind in {Group, ListGroup, Last, Next, AuthInfo, AuthInfoUser, AuthInfoPass, StartTls, ModeReader, Quit}
  {
  }

  /** Which kinds need a capability list, which responses empty it, and which ask for an
      article. */
  lemma CapabilityFacts(kind: RequestKind, status: nat)
    ensures RequiresCapabilities(kind) <==>
            kind in {Post, Ihave, Check, TakeThis, AuthInfoUser, AuthInfoPass, StartTls, Over, Xover, Hdr, Xhdr, NewGroups, NewNews}
    ensures ResponseInvalidatesCapabilities(kind, status) <==>
            kind in {ModeReader, StartTls} || (kind in {AuthInfo, AuthInfoUser, AuthInfoPass} && status in {281, 283})
    ensures InvalidatesCapabilities(kind) <==> exists code: nat :: ResponseInvalidatesCapabilities(kind, code)
    ensures AcceptsArticle(kind, status) <==> (kind, status) in {(Post, 340), (Ihave, 335)}
  {
    assert InvalidatesCapabilities(kind) ==> ResponseInvalidatesCapabilities(kind, 281);
  }

  /** Leading three-digit status, 100 to 599. */
  function StatusOf(d: Bytes): (r: Option<nat>)
    ensures r.Some? ==> 100 <= r.value < 600
  {
    if |d| < 3 || !IsDigit(d[0]) || !IsDigit(d[1]) || !IsDigit(d[2]) then None
    else
      var code := (d[0] as nat - 48) * 100 + (d[1] as nat - 48) * 10 + (d[2] as nat - 48);
      if 100 <= code < 600 then Some(code) else None
  }

  datatype ResponseFraming = SingleLine | Multiline | Unexpected

  predicate GenericError(kind: RequestKind, code: nat) {
    if kind.Capabilities? || kind.Quit? then code == 501
    else if (kind.Head? || kind.Help? || kind.Stat?) && code == 500 then false
    else if kind.StartTls? && (code == 480 || code == 483) then false
    else if (kind.AuthInfoUser? || kind.AuthInfoPass? || kind.AuthInfo?) && code == 480 then false
    else code in {400, 401, 403, 480, 483, 500, 501, 502, 503, 504}
  }

  predicate SpecificError(kind: RequestKind, code: nat) {
    match kind
    case Article | Body | Head | Stat => code in {412, 420, 423, 430}
    case Group => code == 411
    case ListGroup => code in {411, 412}
    case Last => code in {412, 420, 422}
    case Next => code in {412, 420, 421}
    case Over => code in {412, 420, 423, 430}
    case Xover => code in {412, 420}
    case Hdr => code in {412, 420, 423, 430}
    case Xhdr => code in {412, 420, 430}
    case Post => code in {440, 441}
    case Ihave => 435 <= code <= 437
    case Check => code in {431, 438}
    case TakeThis => code == 439
    case AuthInfoUser | AuthInfoPass | AuthInfo => code in {481, 482}
    case StartTls => code == 580
    case _ => false
  }

  predicate MultilineStatus(code: nat) {
    code in {100, 101, 211, 215, 220, 221, 222, 224, 225, 230, 231, 282, 288}
  }

  /** Framing of a non-error response, by the descriptor table. */
  function SuccessFraming(kind: RequestKind, code: nat): (r: ResponseFraming) {
    match kind
    case Article => if code == 220 then Multiline else Unexpected
    case Head => if code == 221 then Multiline else Unexpected
    case Body => if code == 222 then Multiline else Unexpected
    case Stat | Last | Next => if code == 223 then SingleLine else Unexpected
    case Group => if code == 211 then SingleLine else Unexpected
    case ListGroup => if code == 211 then Multiline else Unexpected
    case Date => if code == 111 then SingleLine else Unexpected
    case Help => if code == 100 then Multiline else Unexpected
    case NewGroups => if code == 231 then Multiline else Unexpected
    case NewNews => if code == 230 then Multiline else Unexpected
    case List | ListActive | ListActiveTimes | ListNewsgroups => if code == 215 then Multiline else Unexpected
    case ListOverviewFmt | ListHeaders | ListDistribPats => if code == 215 then Multiline else Unexpected
    case Over | Xover => if code == 224 then Multiline else Unexpected
    case Hdr => if code == 225 then Multiline else Unexpected
    case Xhdr => if code == 221 then Multiline else Unexpected
    case Post => if code == 340 || code == 240 then SingleLine else Unexpected
    case Ihave => if code == 335 || code == 235 then SingleLine else Unexpected
    case Check => if code == 238 then SingleLine else Unexpected
    case TakeThis => if code == 239 then SingleLine else Unexpected
    case AuthInfoUser => if code == 381 || code == 281 then SingleLine else Unexpected
    case AuthInfoPass => if code == 281 then SingleLine else Unexpected
    case AuthInfo => if code == 281 || code == 283 || code == 383 then SingleLine else Unexpected
    case Capabilities => if code == 101 then Multiline else Unexpected
    case ModeReader => if code == 200 || code == 201 then SingleLine else Unexpected
    case ModeStream => if code == 203 then SingleLine else Unexpected
    case Quit => if code == 205 then SingleLine else Unexpected
    case StartTls => if code == 382 then SingleLine else Unexpected
    case Unknown => if MultilineStatus(code) then Multiline else SingleLine
  }

  function FramingOf(kind: RequestKind, code: nat): (r: ResponseFraming) {
    if 400 <= code < 600 then
      if kind.Unknown? || GenericError(kind, code) || SpecificError(kind, code) then SingleLine else Unexpected
    else SuccessFraming(kind, code)
  }

  const MAX_INITIAL_RESPONSE_LINE_BYTES: nat := 512
  const MAX_AUTHINFO_SASL_RESPONSE_LINE_BYTES: nat := 4096

  function InitialLineLimit(kind: RequestKind, status: Option<nat>): (r: nat)
    ensures r == 512 || r == 4096
  {
    if kind.AuthInfo? && (status == Some(283) || status == Some(383)) then MAX_AUTHINFO_SASL_RESPONSE_LINE_BYTES
    else MAX_INITIAL_RESPONSE_LINE_BYTES
  }

  /** The statuses whose content is an article view. */
  predicate IsArticleResponse(kind: RequestKind, status: nat) {
    (kind.Article? && status == 220) || (kind.Head? && status == 221)
    || (kind.Body? && status == 222) || (kind.Stat? && status == 223)
  }

  function TwoDigits(s: Bytes, i: nat): (r: nat)
    requires i + 2 <= |s| && AllDigits(s)
  {
    (s[i] as nat - 48) * 10 + (s[i + 1] as nat - 48)
  }

  /** Fourteen digits: year from 1900, month, day, hour, minute and second in range. */
  predicate ValidTimestamp(s: Bytes) {
    && |s| == 14 && AllDigits(s)
    && DecimalValue(s[..4]) >= 1900
    && 1 <= TwoDigits(s, 4) <= 12 && 1 <= TwoDigits(s, 6) <= 31
    && TwoDigits(s, 8) <= 23 && TwoDigits(s, 10) <= 59 && TwoDigits(s, 12) <= 60
  }

  datatype GroupArguments = GroupArguments(count: nat, low: nat, high: nat, group: Bytes, trailing: Bytes)

  function ParseGroupArguments(value: Bytes): (r: Option<GroupArguments>) {
    match SplitTokens(value, 4)
    case None => None
    case Some((t, trailing)) =>
      var count, low, high := ResponseArticleNumber(t[0]), ResponseArticleNumber(t[1]), ResponseArticleNumber(t[2]);
      if count.Some? && low.Some? && high.Some?
      then Some(GroupArguments(count.value, low.value, high.value, t[3], trailing)) else None
  }

  predicate ValidWatermarks(count: nat, low: nat, high: nat) {
    if low == 0 then count == 0 && high == 0
    else if count == 0 then high >= low || high + 1 == low
    else high >= low && count <= high - low + 1
  }

  predicate ValidGroupArguments(value: Bytes) {
    match ParseGroupArguments(value)
    case None => false
    case Some(a) => ValidWatermarks(a.count, a.low, a.high) && ValidGroupName(a.group) && ValidTrailingComment(a.trailing)
  }

  predicate ValidArticleArguments(value: Bytes, allowZero: bool) {
    match SplitTokens(value, 2)
    case None => false
    case Some((t, trailing)) =>
      var number := ResponseArticleNumber(t[0]);
      number.Some? && (allowZero || number.value != 0) && ValidMessageId(t[1]) && ValidTrailingComment(trailing)
  }

  predicate ValidOneToken(value: Bytes, ok: Bytes -> bool) {
    match SplitTokens(value, 1)
    case None => false
    case Some((t, trailing)) => ok(t[0]) && ValidTrailingComment(trailing)
  }

  predicate IsBase64Byte(b: byte) { IsAlpha(b) || IsDigit(b) || b == 43 || b == 47 }

  predicate PaddedBase64(s: Bytes, padding: nat) {
    && padding <= |s|
    && (forall i | 0 <= i < |s| - padding :: IsBase64Byte(s[i]))
    && (forall i | |s| - padding <= i < |s| :: s[i] == 61)
  }

  /** Nonempty multiple of four, with at most two padding characters at the end. */
  predicate ValidBase64(s: Bytes) {
    s != [] && |s| % 4 == 0 && (PaddedBase64(s, 0) || PaddedBase64(s, 1) || PaddedBase64(s, 2))
  }

  /** Checks of the text after the status. */
  predicate ValidInitialText(kind: RequestKind, status: nat, text: Bytes) {
    if kind.Date? && status == 111 then ValidOneToken(text, ValidTimestamp)
    else if status == 401 then ValidOneToken(text, ValidKeyword)
    else if (kind.Group? || kind.ListGroup?) && status == 211 then ValidGroupArguments(text)
    else if IsArticleResponse(kind, status) then ValidArticleArguments(text, true)
    else if (kind.Last? || kind.Next?) && status == 223 then ValidArticleArguments(text, false)
    else if (kind.Check? && status in {238, 431, 438}) || (kind.TakeThis? && status in {239, 439})
    then ValidOneToken(text, ValidMessageId)
    else if kind.AuthInfo? && status == 283 then ValidOneToken(text, ValidBase64)
    else if kind.AuthInfo? && status == 383 then ValidOneToken(text, (t: Bytes) => t == [61] || ValidBase64(t))
    else text == [] || ValidUChars(text)
  }

  /** Checks of the initial line beyond framing; `line` includes its CRLF. */
  predicate ValidInitialLine(kind: RequestKind, status: nat, line: Bytes) {
    && |line| >= 5 && line[|line| - 2..] == CRLF
    && (|line| > 5 ==> line[3] == SPACE)
    && ValidInitialText(kind, status, if |line| > 5 then line[4..|line| - 2] else [])
  }

  datatype InitialArticle = InitialArticle(number: nat, idStart: nat, idEnd: nat)

  /** Number and message-id of an article-family initial line, its CRLF stripped. */
  function ArticleOfContent(content: Bytes): (r: Option<InitialArticle>) {
    if |content| < 4 || content[3] != SPACE then None
    else
      var numberEnd := 4 + IndexOf(content[4..], SPACE);
      if numberEnd == |content| then None
      else
        var number := ResponseArticleNumber(content[4..numberEnd]);
        var idStart := numberEnd + 1;
        var idEnd := idStart + IndexOf(content[idStart..], SPACE);
        if number.None? || !ValidMessageId(content[idStart..idEnd]) || !ValidTrailingComment(content[idEnd..]) then None
        else Some(InitialArticle(number.value, idStart, idEnd))
  }

  /** The streaming decoder's own reading of an article-family initial line. */
  function ParseInitialArticle(line: Bytes): (r: Option<InitialArticle>) {
    if |line| < 2 || line[|line| - 2..] != CRLF then None else ArticleOfContent(line[..|line| - 2])
  }

  /** Number, space, message-id and optional comment, located by their spaces. */
  predicate ArticleArgumentsBySpaces(a: Bytes) {
    var end := IndexOf(a, SPACE);
    && end < |a|
    && var after := a[end + 1..];
       var n := IndexOf(after, SPACE);
       ResponseArticleNumber(a[..end]).Some? && ValidMessageId(after[..n]) && ValidTrailingComment(after[n..])
  }

  lemma ArticleArgumentsAgree(a: Bytes)
    ensures ValidArticleArguments(a, true) <==> ArticleArgumentsBySpaces(a)
  {
    var end := IndexOf(a, SPACE);
    if a != [] && a[0] != SPACE && end < |a| {
      var after := a[end + 1..];
      assert a[end..][1..] == after;
      var n := IndexOf(after, SPACE);
      assert SplitTokens(after, 1) == if after == [] || after[0] == SPACE then None else Some(([after[..n]], after[n..]));
    }
  }

  /** Slices of a line's content, in coordinates of what follows its first four bytes. */
  lemma ContentSlices(content: Bytes, a: Bytes, end: nat, n: nat)
    requires 4 <= |content| && content[4..] == a && end + 1 + n <= |a|
    ensures content[4..4 + end] == a[..end] && content[4 + end + 1..] == a[end + 1..]
    ensures content[4 + end + 1..4 + end + 1 + n] == a[end + 1..][..n]
    ensures content[4 + end + 1 + n..] == a[end + 1..][n..]
  {
    SliceSlice(content, 4, end);
    SliceSlice(content, 4, end + 1);
    SliceSlice(content, 4 + end + 1, n);
  }

  lemma ContentMeans(content: Bytes, a: Bytes)
    requires 4 <= |content| && content[4..] == a && content[3] == SPACE
    ensures ArticleOfContent(content).Some? <==> ArticleArgumentsBySpaces(a)
  {
    hide ResponseArticleNumber, ValidMessageId, ValidTrailingComment, IndexOf;
    var end := IndexOf(a, SPACE);
    if end < |a| {
      ContentSlices(content, a, end, IndexOf(a[end + 1..], SPACE));
    }
  }

  lemma ParseInitialArticleMeans(line: Bytes)
    requires |line| > 5 && line[|line| - 2..] == CRLF && line[3] == SPACE
    ensures ParseInitialArticle(line).Some? <==> ArticleArgumentsBySpaces(line[4..|line| - 2])
  {
    hide ArticleOfContent, ArticleArgumentsBySpaces;
    var content, a := line[..|line| - 2], line[4..|line| - 2];
    assert content[4..] == a;
    ContentMeans(content, a);
  }

  /** The two readings of an article-family line accept the same lines. */
  lemma InitialArticleAgrees(kind: RequestKind, status: nat, line: Bytes)
    requires IsArticleResponse(kind, status) && |line| >= 5
    ensures ParseInitialArticle(line).Some? <==> ValidInitialLine(kind, status, line)
  {
    if line[|line| - 2..] == CRLF && |line| > 5 && line[3] == SPACE {
      ArticleArgumentsAgree(line[4..|line| - 2]);
      ParseInitialArticleMeans(line);
    }
  }
}
