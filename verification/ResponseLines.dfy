/** Status lines as a server prints them, and what the client reads from them. */
module ResponseLines {
  import opened Wire
  import opened Lines
  import opened Text
  import opened Protocol
  import opened Frames
  import DotStuffing

  // ----- the status -----

  lemma ThreeDigits(code: nat)
    requires 100 <= code < 600
    ensures Digits(code) == [(48 + code / 100) as byte, (48 + code / 10 % 10) as byte, (48 + code % 10) as byte]
  {
    assert Digits(code / 100) == [(48 + code / 100) as byte];
    assert code / 10 / 10 == code / 100;
    assert Digits(code / 10) == Digits(code / 100) + [(48 + code / 10 % 10) as byte];
  }

  lemma Places(n: nat, a: nat, b: nat, c: nat)
    requires a < 10 && b < 10 && c < 10 && n == a * 100 + b * 10 + c
    ensures n / 100 == a && n / 10 % 10 == b && n % 10 == c
  {
    assert n / 10 == a * 10 + b;
  }

  lemma StatusReadsBack(d: Bytes, code: nat)
    requires 100 <= code < 600 && Digits(code) <= d
    ensures StatusOf(d) == Some(code)
  {
    hide Digits;
    ThreeDigits(code);
    assert d[0] == Digits(code)[0] && d[1] == Digits(code)[1] && d[2] == Digits(code)[2];
  }

  lemma StatusMeans(d: Bytes, code: nat)
    requires StatusOf(d) == Some(code)
    ensures 100 <= code < 600 && Digits(code) <= d
  {
    hide Digits;
    var a, b, c := d[0] as nat - 48, d[1] as nat - 48, d[2] as nat - 48;
    Places(code, a, b, c);
    ThreeDigits(code);
    assert Digits(code) == [d[0], d[1], d[2]];
  }

  /** The status read is the number printed at the front, and nothing else is one. */
  lemma StatusIs(d: Bytes, code: nat)
    ensures StatusOf(d) == Some(code) <==> 100 <= code < 600 && Digits(code) <= d
  {
    hide Digits, StatusOf;
    if StatusOf(d) == Some(code) { StatusMeans(d, code); }
    if 100 <= code < 600 && Digits(code) <= d { StatusReadsBack(d, code); }
  }

  // ----- framing -----

  predicate IsListing(kind: RequestKind) {
    kind.List? || kind.ListActive? || kind.ListActiveTimes? || kind.ListNewsgroups? || kind.ListOverviewFmt? || kind.ListHeaders?
    || kind.ListDistribPats?
  }

  /** Requests for one article, by number, message-id or as the current one. */
  predicate AsksForArticle(kind: RequestKind) { kind.Article? || kind.Head? || kind.Body? || kind.Stat? }

  predicate IsAuth(kind: RequestKind) { kind.AuthInfoUser? || kind.AuthInfoPass? || kind.AuthInfo? }

  predicate IsOverview(kind: RequestKind) { kind.Over? || kind.Xover? || kind.Hdr? || kind.Xhdr? }

  /** Multi-line responses, by status. */
  predicate IsMultiline(kind: RequestKind, code: nat) {
    || (code == 100 && kind.Help?) || (code == 101 && kind.Capabilities?) || (code == 211 && kind.ListGroup?)
    || (code == 215 && IsListing(kind)) || (code == 220 && kind.Article?) || (code == 221 && (kind.Head? || kind.Xhdr?))
    || (code == 222 && kind.Body?) || (code == 224 && (kind.Over? || kind.Xover?)) || (code == 225 && kind.Hdr?)
    || (code == 230 && kind.NewNews?) || (code == 231 && kind.NewGroups?)
  }

  /** One-line responses with a status from 100 to 299. */
  predicate IsDone(kind: RequestKind, code: nat) {
    || (code == 111 && kind.Date?) || ((code == 200 || code == 201) && kind.ModeReader?) || (code == 203 && kind.ModeStream?)
    || (code == 205 && kind.Quit?) || (code == 211 && kind.Group?) || (code == 223 && (kind.Stat? || kind.Last? || kind.Next?))
    || (code == 235 && kind.Ihave?) || (code == 238 && kind.Check?) || (code == 239 && kind.TakeThis?) || (code == 240 && kind.Post?)
    || (code == 281 && IsAuth(kind)) || (code == 283 && kind.AuthInfo?)
  }

  /** Responses that ask the client to go on. */
  predicate IsGoAhead(kind: RequestKind, code: nat) {
    || (code == 335 && kind.Ihave?) || (code == 340 && kind.Post?) || (code == 381 && kind.AuthInfoUser?)
    || (code == 382 && kind.StartTls?) || (code == 383 && kind.AuthInfo?)
  }

  /** Errors that only some requests can meet. */
  predicate IsOwnError(kind: RequestKind, code: nat) {
    || (code == 411 && (kind.Group? || kind.ListGroup?))
    || (code == 412 && (AsksForArticle(kind) || kind.ListGroup? || kind.Last? || kind.Next? || IsOverview(kind)))
    || (code == 420 && (AsksForArticle(kind) || kind.Last? || kind.Next? || IsOverview(kind)))
    || (code == 421 && kind.Next?) || (code == 422 && kind.Last?)
    || (code == 423 && (AsksForArticle(kind) || kind.Over? || kind.Hdr?))
    || (code == 430 && (AsksForArticle(kind) || kind.Over? || kind.Hdr? || kind.Xhdr?))
    || (435 <= code <= 437 && kind.Ihave?) || ((code == 431 || code == 438) && kind.Check?) || (code == 439 && kind.TakeThis?)
    || ((code == 440 || code == 441) && kind.Post?) || ((code == 481 || code == 482) && IsAuth(kind)) || (code == 580 && kind.StartTls?)
  }

  /** Errors that any request can meet, but for those that have no use for them. */
  predicate IsCommonError(kind: RequestKind, code: nat) {
    if kind.Capabilities? || kind.Quit? then code == 501
    else
      || 400 <= code <= 401 || code == 403 || 501 <= code <= 504
      || (code == 480 && !kind.StartTls? && !IsAuth(kind)) || (code == 483 && !kind.StartTls?)
      || (code == 500 && !kind.Head? && !kind.Help? && !kind.Stat?)
  }

  lemma SuccessByStatus(kind: RequestKind, code: nat)
    requires !kind.Unknown?
    ensures SuccessFraming(kind, code) == Multiline <==> IsMultiline(kind, code)
  {
  }

  lemma DoneByStatus(kind: RequestKind, code: nat)
    requires !kind.Unknown? && code < 300
    ensures SuccessFraming(kind, code) == SingleLine <==> IsDone(kind, code)
  {
  }

  lemma GoAheadByStatus(kind: RequestKind, code: nat)
    requires !kind.Unknown? && 300 <= code
    ensures SuccessFraming(kind, code) == SingleLine <==> IsGoAhead(kind, code)
  {
  }

  lemma OwnErrorsByStatus(kind: RequestKind, code: nat)
    ensures SpecificError(kind, code) <==> IsOwnError(kind, code)
  {
  }

  lemma CommonErrorsByStatus(kind: RequestKind, code: nat)
    requires !kind.Unknown?
    ensures GenericError(kind, code) <==> IsCommonError(kind, code)
  {
  }

  lemma UnknownByStatus(code: nat)
    ensures SuccessFraming(Unknown, code) == if MultilineStatus(code) then Multiline else SingleLine
  {
  }

  /** Each kind of response has its own range of statuses. */
  lemma SuccessRange(kind: RequestKind, code: nat)
    ensures IsMultiline(kind, code) || IsDone(kind, code) ==> code < 300
    ensures IsGoAhead(kind, code) ==> 300 <= code < 400
  {
    hide IsListing, IsAuth;
  }

  lemma ErrorRange(kind: RequestKind, code: nat)
    ensures IsOwnError(kind, code) || IsCommonError(kind, code) ==> 400 <= code < 600
  {
    hide AsksForArticle, IsOverview, IsAuth;
  }

  /** The framing of every response to every request, told by status rather than by request. */
  lemma FramingByStatus(kind: RequestKind, code: nat)
    requires code < 600
    ensures FramingOf(kind, code) ==
            if kind.Unknown? then (if code < 400 && MultilineStatus(code) then Multiline else SingleLine)
            else if IsMultiline(kind, code) then Multiline
            else if IsDone(kind, code) || IsGoAhead(kind, code) || IsOwnError(kind, code) || IsCommonError(kind, code) then SingleLine
            else Unexpected
  {
    hide IsMultiline, IsDone, IsGoAhead, IsOwnError, IsCommonError, SpecificError, GenericError, MultilineStatus, SuccessFraming;
    if kind.Unknown? {
      UnknownByStatus(code);
    } else {
      SuccessRange(kind, code);
      ErrorRange(kind, code);
      if 400 <= code {
        OwnErrorsByStatus(kind, code);
        CommonErrorsByStatus(kind, code);
      } else {
        SuccessByStatus(kind, code);
        if code < 300 { DoneByStatus(kind, code); } else { GoAheadByStatus(kind, code); }
      }
    }
  }

  // ----- the text after the status -----

  /** A word and what follows it. */
  predicate WordThen(value: Bytes, word: Bytes, tail: Bytes) { Unspaced(word) && IsTail(tail) && value == word + tail }

  /** One argument, with an optional comment behind a space. */
  lemma OneTokenMeans(value: Bytes, ok: Bytes -> bool)
    ensures ValidOneToken(value, ok) <==> exists word, tail :: WordThen(value, word, tail) && ok(word) && ValidTrailingComment(tail)
  {
    hide SplitTokens, ValidTrailingComment;
    if ValidOneToken(value, ok) {
      SplitMeans(value, 1);
      var (words, tail) := SplitTokens(value, 1).value;
      assert WordThen(value, words[0], tail);
    }
    if word, tail :| WordThen(value, word, tail) && ok(word) && ValidTrailingComment(tail) {
      SplitOne(word, tail);
    }
  }

  lemma DigitsUnspaced(n: nat)
    ensures Unspaced(Digits(n))
  {
    hide Digits, DecimalValue;
    DigitsReadBack(n);
  }

  /** A printed group line reads back with each number in its place ... */
  lemma GroupReadsBack(count: nat, low: nat, high: nat, group: Bytes, tail: Bytes)
    requires count <= MAX_ARTICLE_NUMBER && low <= MAX_ARTICLE_NUMBER && high <= MAX_ARTICLE_NUMBER
    requires Unspaced(group) && IsTail(tail)
    ensures ParseGroupArguments(Phrase([Digits(count), Digits(low), Digits(high), group]) + tail)
         == Some(GroupArguments(count, low, high, group, tail))
  {
    hide Digits, SplitTokens, ResponseArticleNumber, Phrase;
    ResponseNumberReadsBack(count);
    ResponseNumberReadsBack(low);
    ResponseNumberReadsBack(high);
    DigitsUnspaced(count);
    DigitsUnspaced(low);
    DigitsUnspaced(high);
    SplitPrinted([Digits(count), Digits(low), Digits(high), group], tail);
  }

  /** ... and whatever is read is such a line. */
  lemma GroupMeans(value: Bytes, a: GroupArguments)
    requires ParseGroupArguments(value) == Some(a)
    ensures exists words: seq<Bytes> ::
              && |words| == 4 && AllUnspaced(words) && IsTail(a.trailing) && value == Phrase(words) + a.trailing
              && ResponseArticleNumber(words[0]) == Some(a.count) && ResponseArticleNumber(words[1]) == Some(a.low)
              && ResponseArticleNumber(words[2]) == Some(a.high) && words[3] == a.group
  {
    hide SplitTokens, ResponseArticleNumber, Phrase;
    SplitMeans(value, 4);
    var words := SplitTokens(value, 4).value.0;
    assert |words| == 4;
  }

  lemma IdUnspaced(id: Bytes)
    requires ValidMessageId(id)
    ensures Unspaced(id)
  {
  }

  lemma CommentIsTail(tail: Bytes)
    requires ValidTrailingComment(tail)
    ensures IsTail(tail)
  {
  }

  lemma WordsOfArticle(number: nat, id: Bytes, tail: Bytes)
    requires number <= MAX_ARTICLE_NUMBER && ValidMessageId(id) && ValidTrailingComment(tail)
    ensures SplitTokens(Phrase([Digits(number), id]) + tail, 2) == Some(([Digits(number), id], tail))
    ensures ResponseArticleNumber(Digits(number)) == Some(number)
  {
    hide Digits, SplitTokens, ResponseArticleNumber, Phrase, ValidMessageId, ValidTrailingComment, Unspaced, IsTail;
    ResponseNumberReadsBack(number);
    DigitsUnspaced(number);
    IdUnspaced(id);
    CommentIsTail(tail);
    SplitPrinted([Digits(number), id], tail);
  }

  /** A printed number and message-id are accepted wherever they are due, but NEXT and LAST
      never lead to number zero. */
  lemma ArticleTextAccepted(kind: RequestKind, code: nat, number: nat, id: Bytes, tail: Bytes)
    requires number <= MAX_ARTICLE_NUMBER && ValidMessageId(id) && ValidTrailingComment(tail)
    requires IsArticleResponse(kind, code) || ((kind.Last? || kind.Next?) && code == 223)
    ensures ValidInitialText(kind, code, Phrase([Digits(number), id]) + tail) <==> IsArticleResponse(kind, code) || number != 0
  {
    hide Digits, SplitTokens, ResponseArticleNumber, Phrase, ValidMessageId, ValidTrailingComment, ValidOneToken, ValidGroupArguments,
      ValidUChars;
    WordsOfArticle(number, id, tail);
  }

  /** A printed group line is accepted if and only if its numbers agree: all zero, or a first
      number with room for the count up to the last. */
  lemma GroupTextAccepted(kind: RequestKind, count: nat, low: nat, high: nat, group: Bytes, tail: Bytes)
    requires kind.Group? || kind.ListGroup?
    requires count <= MAX_ARTICLE_NUMBER && low <= MAX_ARTICLE_NUMBER && high <= MAX_ARTICLE_NUMBER
    requires Unspaced(group) && IsTail(tail)
    ensures ValidInitialText(kind, 211, Phrase([Digits(count), Digits(low), Digits(high), group]) + tail) <==>
            && (if low == 0 then count == 0 && high == 0 else low + count <= high + 1)
            && ValidGroupName(group) && ValidTrailingComment(tail)
  {
    hide Digits, Phrase, ParseGroupArguments, ValidGroupName, ValidTrailingComment, ValidOneToken, ValidArticleArguments, ValidUChars;
    GroupReadsBack(count, low, high, group, tail);
  }

  // ----- whole lines -----

  /** A status line as a server prints it. */
  function StatusLine(code: nat, text: Bytes): (line: Bytes) {
    Digits(code) + (if text == [] then [] else [SPACE] + text) + CRLF
  }

  lemma StatusLineParts(code: nat, text: Bytes)
    requires 100 <= code < 600
    ensures var line := StatusLine(code, text);
            && |line| == 5 + (if text == [] then 0 else 1 + |text|) && Digits(code) <= line && line[|line| - 2..] == CRLF
            && (text != [] ==> line[3] == SPACE && line[4..|line| - 2] == text)
  {
    ThreeDigits(code);
    hide Digits;
  }

  /** The checks of a printed line are those of its text. */
  lemma StatusLineText(kind: RequestKind, code: nat, text: Bytes)
    requires 100 <= code < 600
    ensures ValidInitialLine(kind, code, StatusLine(code, text)) <==> ValidInitialText(kind, code, text)
  {
    hide StatusLine, ValidInitialText;
    StatusLineParts(code, text);
  }

  lemma StatusLineUnbroken(code: nat, text: Bytes)
    requires 100 <= code < 600 && Unbroken(text)
    ensures IsLine(StatusLine(code, text), |StatusLine(code, text)|)
  {
    ThreeDigits(code);
    hide Digits;
  }

  lemma PrintedLineIsFramed(kind: RequestKind, code: nat, text: Bytes, rest: Bytes)
    requires 100 <= code < 600 && Unbroken(text) && ValidInitialText(kind, code, text)
    requires |StatusLine(code, text)| <= InitialLineLimit(kind, Some(code))
    ensures Frame(kind, StatusLine(code, text) + rest) == FrameBody(kind, code, StatusLine(code, text), rest)
    ensures ValidInitialLine(kind, code, StatusLine(code, text))
  {
    hide StatusLine, FrameBody, ValidInitialText, ValidInitialLine, InitialLineLimit, Frame, StatusOf, LineEnd;
    var line := StatusLine(code, text);
    StatusLineText(kind, code, text);
    StatusLineParts(code, text);
    StatusLineUnbroken(code, text);
    StatusIs(line + rest, code);
    LineEndFinds(line, |line|);
    LineEndStable(line, rest);
    FrameDecided(kind, line + rest);
    assert (line + rest)[..|line|] == line && (line + rest)[|line|..] == rest;
  }

  /** A response as a server prints it is framed with its own status at exactly its own
      length, whatever follows: a status line, and for a multi-line response the encoded
      payload behind it. */
  lemma PrintedResponseIsFramed(kind: RequestKind, code: nat, text: Bytes, payload: Bytes, rest: Bytes)
    requires 100 <= code < 600 && Unbroken(text) && ValidInitialText(kind, code, text) && FramingOf(kind, code) != Unexpected
    requires |StatusLine(code, text)| <= if kind.AuthInfo? && (code == 283 || code == 383) then 4096 else 512
    ensures var line, body := StatusLine(code, text), DotStuffing.Encode(payload);
            var n := |line|;
            if FramingOf(kind, code) == Multiline
            then Frame(kind, line + (body + rest)) == Framed(code, n, n + |body| - 3, n + |body|)
            else Frame(kind, line + rest) == Framed(code, n, n, n)
  {
    hide StatusLine, FramingOf, ValidInitialText, ValidInitialLine, DotStuffing.Encode, Frame, FirstDotLine, StatusOf;
    DotStuffing.EncodeIsOneBlock(payload, rest);
    PrintedLineIsFramed(kind, code, text, DotStuffing.Encode(payload) + rest);
    PrintedLineIsFramed(kind, code, text, rest);
  }

  lemma ArticleWords(word: Bytes, id: Bytes, tail: Bytes)
    ensures Phrase([word, id]) + tail == word + ([SPACE] + (id + tail))
  {
    PhraseCons(word, [id], tail);
    assert [word] + [id] == [word, id];
  }

  /** Where the words of an article line lie. */
  lemma ArticleSlices(content: Bytes, word: Bytes, id: Bytes, tail: Bytes)
    requires 4 <= |content| && content[4..] == word + ([SPACE] + (id + tail)) && Unspaced(word) && Unspaced(id) && IsTail(tail)
    ensures var start := 4 + |word| + 1;
            && start <= |content| && IndexOf(content[4..], SPACE) == |word| && content[4..4 + |word|] == word
            && content[start..] == id + tail && IndexOf(content[start..], SPACE) == |id|
            && start + |id| <= |content| && content[start..start + |id|] == id && content[start + |id|..] == tail
  {
    hide IndexOf, Unspaced;
    var after := id + tail;
    IndexOfSpace(word, [SPACE] + after);
    IndexOfSpace(id, tail);
    assert (word + ([SPACE] + after))[|word| + 1..] == after;
    ContentSlices(content, word + ([SPACE] + after), |word|, |id|);
  }

  lemma ContentReadsBack(content: Bytes, number: nat, id: Bytes, tail: Bytes)
    requires 4 <= |content| && content[3] == SPACE && content[4..] == Digits(number) + ([SPACE] + (id + tail))
    requires number <= MAX_ARTICLE_NUMBER && ValidMessageId(id) && ValidTrailingComment(tail)
    ensures ArticleOfContent(content) ==
            Some(InitialArticle(number, 4 + |Digits(number)| + 1, 4 + |Digits(number)| + 1 + |id|))
  {
    hide Digits, ResponseArticleNumber, ValidTrailingComment, ValidMessageId, IndexOf, Unspaced, IsTail;
    ResponseNumberReadsBack(number);
    DigitsUnspaced(number);
    IdUnspaced(id);
    CommentIsTail(tail);
    ArticleSlices(content, Digits(number), id, tail);
  }

  /** A printed article status line reads back with its number and the place of its
      message-id. */
  lemma ArticleReadsBack(code: nat, number: nat, id: Bytes, tail: Bytes)
    requires 100 <= code < 600 && number <= MAX_ARTICLE_NUMBER && ValidMessageId(id) && ValidTrailingComment(tail)
    ensures ParseInitialArticle(StatusLine(code, Phrase([Digits(number), id]) + tail))
         == Some(InitialArticle(number, 4 + |Digits(number)| + 1, 4 + |Digits(number)| + 1 + |id|))
  {
    hide Digits, ValidTrailingComment, StatusLine, Phrase, ArticleOfContent;
    var text := Phrase([Digits(number), id]) + tail;
    var line := StatusLine(code, text);
    ArticleWords(Digits(number), id, tail);
    StatusLineParts(code, text);
    var content := line[..|line| - 2];
    assert content[4..] == text;
    ContentReadsBack(content, number, id, tail);
  }
}
