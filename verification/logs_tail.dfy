/**
 * The log tail endpoint (app/routers/logs_tail.py): the last lines of
 * today's log file, read backwards in chunks of 1024 bytes; an optional
 * keyword filter; optional colouring by log level; a plain-text or JSON
 * answer. The file is its contents, or None when it does not exist;
 * decoding is the identity on the model's characters.
 */
module LogsTail {
  import opened Text

  /** Bytes per backward read. */
  const CHUNK: nat := 1024

  const NOT_FOUND := "Today's log file not found"

  // ---------- line splitting ----------

  /**
   * `s.splitlines()` for text whose only line break is "\n": the pieces
   * between newlines, without the empty piece after a final newline.
   */
  function SplitLines(s: string): (r: seq<string>)
    ensures forall i :: 0 <= i < |r| ==> '\n' !in r[i]
    ensures s != [] ==> |r| == Count(s, '\n') + (if s[|s| - 1] == '\n' then 0 else 1)
  {
    if s == [] then []
    else
      SplitPieceChars(s, '\n');
      SplitCount(s, '\n');
      var parts := Split(s, '\n');
      if s[|s| - 1] == '\n' then parts[..|parts| - 1] else parts
  }

  /** `text[-lines:] if len(text) > lines else text`, with Python's slice rules. */
  function LastLines(text: seq<string>, lines: int): (r: seq<string>)
    ensures lines >= 1 ==> |r| == Min(lines, |text|) && r == text[|text| - |r|..]
    ensures lines == 0 ==> r == text
  {
    if |text| > lines then
      if lines > 0 then text[|text| - lines..]
      // text[-0:] is the whole list, and text[-(-k):] drops the first k
      else text[Min(-lines, |text|)..]
    else text
  }

  /** Two lists that end in the same `lines` or more elements have the same last lines. */
  lemma SharedEnd(x: seq<string>, y: seq<string>, z: seq<string>, lines: int)
    requires lines >= 1 && |z| >= lines
    ensures LastLines(x + z, lines) == LastLines(y + z, lines)
  {
    assert (x + z)[|x + z| - lines..] == z[|z| - lines..];
    assert (y + z)[|y + z| - lines..] == z[|z| - lines..];
  }

  /** The last piece dropped when `drop` holds. */
  function DropLast(parts: seq<string>, drop: bool): seq<string>
    requires |parts| >= 1
  {
    if drop then parts[..|parts| - 1] else parts
  }

  lemma SplitLinesDropsLast(s: string)
    requires s != []
    ensures SplitLines(s) == DropLast(Split(s, '\n'), s[|s| - 1] == '\n')
  {
  }

  /** Gluing pieces in front of a list of more than `lines` + 1 pieces does not change its last lines. */
  lemma GluedTail(a: seq<string>, b: seq<string>, lines: int, drop: bool)
    requires |a| >= 1 && lines >= 1 && |b| > lines + 1
    ensures LastLines(DropLast(Glue(a, b), drop), lines) == LastLines(DropLast(b, drop), lines)
  {
    var x := a[..|a| - 1] + [a[|a| - 1] + b[0]];
    var z := if drop then b[1..|b| - 1] else b[1..];
    assert DropLast(Glue(a, b), drop) == x + z;
    assert DropLast(b, drop) == [b[0]] + z;
    SharedEnd(x, [b[0]], z, lines);
  }

  /** The lines of a concatenation: the pieces of both parts glued at the seam. */
  lemma SplitLinesOfConcat(p: string, q: string)
    requires q != []
    ensures SplitLines(p + q) == DropLast(Glue(Split(p, '\n'), Split(q, '\n')), q[|q| - 1] == '\n')
  {
    assert (p + q)[|p + q| - 1] == q[|q| - 1];
    SplitLinesDropsLast(p + q);
    SplitConcat(p, q, '\n');
  }

  /**
   * When the second part of a text holds more than `lines` newlines, the
   * last `lines` lines of the whole text lie inside it.
   */
  lemma SuffixKeepsLastLines(p: string, q: string, lines: int)
    requires lines >= 1 && Count(q, '\n') > lines
    ensures LastLines(SplitLines(p + q), lines) == LastLines(SplitLines(q), lines)
  {
    SplitCount(q, '\n');
    SplitLinesOfConcat(p, q);
    SplitLinesDropsLast(q);
    GluedTail(Split(p, '\n'), Split(q, '\n'), lines, q[|q| - 1] == '\n');
  }

  // ---------- reading the tail ----------

  /**
   * The read loop as written: while bytes remain before `end` and the
   * buffer holds no more than `lines` newlines, the next chunk back is
   * read and appended AFTER the bytes already buffered.
   */
  function BufferAsWritten(data: string, end: nat, buffer: string, lines: int): (r: string)
    requires end <= |data|
    ensures |buffer| <= |r| <= |buffer| + end && r[..|buffer|] == buffer
    decreases end
  {
    if end > 0 && Count(buffer, '\n') <= lines then
      var size := Min(CHUNK, end);
      BufferAsWritten(data, end - size, buffer + data[end - size..end], lines)
    else buffer
  }

  /** `tail_file(path, lines)` as written, for an existing file. */
  function TailAsWritten(data: string, lines: int): (r: seq<string>)
    ensures lines >= 1 ==> |r| <= lines
    ensures forall i :: 0 <= i < |r| ==> '\n' !in r[i]
  {
    LastLines(SplitLines(BufferAsWritten(data, |data|, [], lines)), lines)
  }

  /**
   * Where the backward reads stop: the first position from which the
   * remaining bytes hold more than `lines` newlines, or the start of the
   * file. Each read moves back by one chunk, or by what is left.
   */
  function TailStart(data: string, end: nat, lines: int): (e: nat)
    requires end <= |data|
    ensures e <= end
    ensures e == 0 || Count(data[e..], '\n') > lines
    decreases end
  {
    if end > 0 && Count(data[end..], '\n') <= lines then TailStart(data, end - Min(CHUNK, end), lines)
    else end
  }

  /** `tail_file(path, lines)` as written: a missing file raises, otherwise the buffer's last lines. */
  method TailFileAsWritten(file: Option<string>, lines: int) returns (r: Result<seq<string>, string>)
    ensures file.None? ==> r == Err(NOT_FOUND)
    ensures file.Some? ==> r == Ok(TailAsWritten(file.value, lines))
  {
    if file.None? {
      return Err(NOT_FOUND);
    }
    var data := file.value;
    var end: nat := |data|;
    var buffer: string := [];
    var lineCount := 0;
    while end > 0 && lineCount <= lines
      invariant end <= |data| && |buffer| == |data| - end
      invariant lineCount == Count(buffer, '\n')
      invariant BufferAsWritten(data, end, buffer, lines) == BufferAsWritten(data, |data|, [], lines)
      decreases end
    {
      var size := Min(CHUNK, end);
      end := end - size;
      buffer := buffer + data[end..end + size];
      lineCount := Count(buffer, '\n');
    }
    r := Ok(LastLines(SplitLines(buffer), lines));
  }

  /**
   * `tail_file(path, lines)` with each chunk placed before the bytes
   * already read, so that the buffer is the file's end in order. For a
   * positive count the result is the last lines of the whole file.
   */
  method TailFile(file: Option<string>, lines: int) returns (r: Result<seq<string>, string>)
    ensures file.None? ==> r == Err(NOT_FOUND)
    ensures file.Some? ==> r == Ok(LastLines(SplitLines(file.value[TailStart(file.value, |file.value|, lines)..]), lines))
    ensures file.Some? && lines >= 1 ==> r == Ok(LastLines(SplitLines(file.value), lines))
  {
    if file.None? {
      return Err(NOT_FOUND);
    }
    var data := file.value;
    var end: nat := |data|;
    var buffer: string := [];
    var lineCount := 0;
    while end > 0 && lineCount <= lines
      invariant end <= |data| && buffer == data[end..]
      invariant lineCount == Count(buffer, '\n')
      invariant TailStart(data, end, lines) == TailStart(data, |data|, lines)
      decreases end
    {
      var size := Min(CHUNK, end);
      end := end - size;
      buffer := data[end..end + size] + buffer;
      lineCount := Count(buffer, '\n');
    }
    r := Ok(LastLines(SplitLines(buffer), lines));
    if lines >= 1 {
      TailIsLastLines(data, lines);
    }
  }

  /** What the corrected reads keep is enough: its last lines are the file's last lines. */
  lemma TailIsLastLines(data: string, lines: int)
    requires lines >= 1
    ensures LastLines(SplitLines(data[TailStart(data, |data|, lines)..]), lines) == LastLines(SplitLines(data), lines)
  {
    var e := TailStart(data, |data|, lines);
    if e == 0 {
      assert data[e..] == data;
    } else {
      assert data == data[..e] + data[e..];
      SuffixKeepsLastLines(data[..e], data[e..], lines);
    }
  }

  /** A file of at most one chunk is read whole in one step, so the code as written returns its last lines. */
  lemma SmallFileAsWritten(data: string, lines: int)
    requires |data| <= CHUNK && lines >= 1
    ensures TailAsWritten(data, lines) == LastLines(SplitLines(data), lines)
  {
    if data != [] {
      assert [] + data[0..|data|] == data;
      assert BufferAsWritten(data, |data|, [], lines) == BufferAsWritten(data, 0, data, lines);
    }
  }

  /**
   * A file whose last chunk already holds more than `lines` newlines is
   * read in one step as well, so the code as written is right there too.
   */
  lemma OneChunkEnoughAsWritten(data: string, lines: int)
    requires lines >= 0 && |data| > 0
    requires Count(data[|data| - Min(CHUNK, |data|)..], '\n') > lines
    ensures TailAsWritten(data, lines) == LastLines(SplitLines(data[|data| - Min(CHUNK, |data|)..]), lines)
  {
    var start := |data| - Min(CHUNK, |data|);
    assert [] + data[start..|data|] == data[start..];
    assert BufferAsWritten(data, |data|, [], lines) == BufferAsWritten(data, start, data[start..], lines);
  }

  /**
   * A file of "A\n" followed by one chunk without newlines, read for its
   * last line: first the chunk, then the two bytes before it, appended
   * after it.
   */
  lemma TwoReadsAsWritten(body: string)
    requires |body| == CHUNK && '\n' !in body
    ensures BufferAsWritten("A\n" + body, CHUNK + 2, [], 1) == body + "A\n"
  {
    var data := "A\n" + body;
    assert BufferAsWritten(data, CHUNK + 2, [], 1) == BufferAsWritten(data, 2, body, 1) by {
      assert [] + data[2..CHUNK + 2] == body;
    }
    assert BufferAsWritten(data, 2, body, 1) == BufferAsWritten(data, 0, body + "A\n", 1) by {
      CountAbsent(body, '\n');
      assert data[0..2] == "A\n";
    }
  }

  /** A line without newlines followed by a newline is that one line. */
  lemma OneLine(a: string)
    requires '\n' !in a
    ensures SplitLines(a + "\n") == [a]
  {
    assert a + "\n" == a + ['\n'] + "";
    SplitAtSeparator(a, "", '\n');
  }

  /** Two lines without newlines joined by one, the second one not empty, are those two lines. */
  lemma TwoLines(a: string, b: string)
    requires '\n' !in a && '\n' !in b && b != []
    ensures SplitLines(a + "\n" + b) == [a, b]
  {
    assert a + "\n" + b == a + ['\n'] + b;
    SplitAtSeparator(a, b, '\n');
    SplitWithoutSeparator(b, '\n');
    assert (a + "\n" + b)[|a + "\n" + b| - 1] == b[|b| - 1];
  }

  /**
   * The code as written loses the file's order once a second chunk is
   * needed: "A\n" followed by one chunk without newlines, asked for its
   * last line, gives the chunk followed by "A" instead of the chunk.
   */
  lemma AsWrittenMisordersChunks(body: string)
    requires |body| == CHUNK && '\n' !in body
    ensures TailAsWritten("A\n" + body, 1) == [body + "A"]
    ensures LastLines(SplitLines("A\n" + body), 1) == [body]
    ensures TailAsWritten("A\n" + body, 1) != LastLines(SplitLines("A\n" + body), 1)
  {
    assert |"A\n" + body| == CHUNK + 2;
    TwoReadsAsWritten(body);
    assert '\n' !in body + "A";
    OneLine(body + "A");
    assert (body + "A") + "\n" == body + "A\n";
    TwoLines("A", body);
    assert "A" + "\n" + body == "A\n" + body;
    assert |body + "A"| != |body|;
  }

  /** The smallest such file: "A\n" and 1024 'B's. */
  lemma AsWrittenExample()
    ensures var body := seq(CHUNK, _ => 'B');
      TailAsWritten("A\n" + body, 1) == [body + "A"] != LastLines(SplitLines("A\n" + body), 1)
  {
    var body := seq(CHUNK, _ => 'B');
    assert forall i :: 0 <= i < |body| ==> body[i] != '\n';
    AsWrittenMisordersChunks(body);
  }

  // ---------- colouring ----------

  /** The levels in the order they are tried, each with its ANSI colour. */
  const LEVELS: seq<(string, string)> := [
    ("ERROR", "\U{1B}[91m"),
    ("WARNING", "\U{1B}[93m"),
    ("INFO", "\U{1B}[92m"),
    ("DEBUG", "\U{1B}[94m")
  ]

  const RESET := "\U{1B}[0m"

  /** A regular-expression word character, on ASCII. */
  predicate IsWordChar(c: char) {
    'a' <= c <= 'z' || 'A' <= c <= 'Z' || '0' <= c <= '9' || c == '_'
  }

  /** `word` occurs in `line` at i, ignoring case, with no word character right before or after it. */
  predicate WordAt(line: string, word: string, i: int) {
    && 0 <= i && i + |word| <= |line|
    && Lower(line[i..i + |word|]) == Lower(word)
    && (i == 0 || !IsWordChar(line[i - 1]))
    && (i + |word| == |line| || !IsWordChar(line[i + |word|]))
  }

  /** `re.search(rf"\b{word}\b", line, re.IGNORECASE)` for a word made of word characters. */
  predicate HasWord(line: string, word: string) {
    exists i | 0 <= i <= |line| - |word| :: WordAt(line, word, i)
  }

  /** The loop over the levels from the k-th on: the first level named in the line colours it. */
  function HighlightFrom(line: string, k: nat): (r: string)
    ensures r == line || exists j :: k <= j < |LEVELS| && r == LEVELS[j].1 + line + RESET
    decreases |LEVELS| - k
  {
    if k >= |LEVELS| then line
    else if HasWord(line, LEVELS[k].0) then LEVELS[k].1 + line + RESET
    else HighlightFrom(line, k + 1)
  }

  /** `highlight_line(line)`. */
  function HighlightLine(line: string): (r: string)
    ensures r == line || exists j :: 0 <= j < |LEVELS| && r == LEVELS[j].1 + line + RESET
  {
    HighlightFrom(line, 0)
  }

  /** The first level the line names decides its colour, whatever later levels it names too. */
  lemma {:induction false} FirstLevelWins(line: string, k: nat)
    requires k < |LEVELS| && HasWord(line, LEVELS[k].0)
    requires forall j :: 0 <= j < k ==> !HasWord(line, LEVELS[j].0)
    ensures HighlightLine(line) == LEVELS[k].1 + line + RESET
  {
    FirstLevelFrom(line, 0, k);
  }

  lemma {:induction false} FirstLevelFrom(line: string, i: nat, k: nat)
    requires i <= k < |LEVELS| && HasWord(line, LEVELS[k].0)
    requires forall j :: i <= j < k ==> !HasWord(line, LEVELS[j].0)
    ensures HighlightFrom(line, i) == LEVELS[k].1 + line + RESET
    decreases k - i
  {
    if i < k {
      FirstLevelFrom(line, i + 1, k);
    }
  }

  /** A line that names no level is returned unchanged. */
  lemma {:induction false} NoLevelUnchanged(line: string, i: nat)
    requires forall j :: 0 <= j < |LEVELS| ==> !HasWord(line, LEVELS[j].0)
    ensures HighlightFrom(line, i) == line
    decreases |LEVELS| - i
  {
    if i < |LEVELS| {
      NoLevelUnchanged(line, i + 1);
    }
  }

  /** Case and neighbouring punctuation do not matter: "error:" at the start of a line is coloured red. */
  lemma LowercaseErrorIsRed(rest: string)
    ensures HighlightLine("error:" + rest) == LEVELS[0].1 + ("error:" + rest) + RESET
  {
    var line := "error:" + rest;
    assert line[0..5] == "error";
    assert WordAt(line, "ERROR", 0);
    FirstLevelWins(line, 0);
  }

  // ---------- keyword filter ----------

  /** `[k.strip() for k in filter.split(",")] if filter else None`. */
  function Keywords(filter: Option<string>): (r: Option<seq<string>>)
    ensures r.None? <==> filter.None? || filter.value == ""
    ensures r.Some? ==> |r.value| == Count(filter.value, ',') + 1
  {
    if filter.None? || filter.value == "" then None
    else
      SplitCount(filter.value, ',');
      Some(StripAll(Split(filter.value, ',')))
  }

  /** `[k.strip() for k in pieces]`. */
  function StripAll(pieces: seq<string>): (r: seq<string>)
    ensures |r| == |pieces|
  {
    seq(|pieces|, i requires 0 <= i < |pieces| => Strip(pieces[i]))
  }

  lemma StripAllUnpadded(pieces: seq<string>)
    requires forall i :: 0 <= i < |pieces| ==> Strip(pieces[i]) == pieces[i]
    ensures StripAll(pieces) == pieces
  {
  }

  /** Keywords joined with commas come back as they were, when none has a comma or surrounding spaces. */
  lemma JoinedKeywordsRoundTrip(keywords: seq<string>)
    requires |keywords| >= 1 && Join(keywords, ",") != ""
    requires forall i :: 0 <= i < |keywords| ==> ',' !in keywords[i] && Strip(keywords[i]) == keywords[i]
    ensures Keywords(Some(Join(keywords, ","))) == Some(keywords)
  {
    var text := Join(keywords, ",");
    assert Split(text, ',') == keywords by {
      SplitJoin(keywords, ',');
    }
    StripAllUnpadded(keywords);
    assert Keywords(Some(text)) == Some(StripAll(Split(text, ',')));
  }

  /** A filter ending in a comma has the empty keyword among its keywords. */
  lemma TrailingCommaGivesEmptyKeyword(filter: string)
    requires filter != [] && filter[|filter| - 1] == ','
    ensures Keywords(Some(filter)).Some? && "" in Keywords(Some(filter)).value
  {
    var a := filter[..|filter| - 1];
    assert filter == a + [','] + "";
    LastPieceAfterSeparator(a, "", ',');
    var pieces := Split(filter, ',');
    assert Strip(pieces[|pieces| - 1]) == "";
    assert Keywords(Some(filter)).value[|pieces| - 1] == "";
  }

  /** `any(k.lower() in l.lower() for k in keywords)`, keyword by keyword. */
  predicate Matches(line: string, keywords: seq<string>) {
    keywords != [] && (Contains(Lower(line), Lower(keywords[0])) || Matches(line, keywords[1..]))
  }

  /** A line matches exactly when one of the keywords, ignoring case, is inside it. */
  lemma {:induction false} MatchesSomeKeyword(line: string, keywords: seq<string>)
    ensures Matches(line, keywords) <==> exists k :: 0 <= k < |keywords| && Contains(Lower(line), Lower(keywords[k]))
  {
    if keywords != [] {
      MatchesSomeKeyword(line, keywords[1..]);
      if Matches(line, keywords[1..]) {
        var k :| 0 <= k < |keywords| - 1 && Contains(Lower(line), Lower(keywords[1..][k]));
        assert Contains(Lower(line), Lower(keywords[k + 1]));
      }
      if exists k :: 0 <= k < |keywords| && Contains(Lower(line), Lower(keywords[k])) {
        var k :| 0 <= k < |keywords| && Contains(Lower(line), Lower(keywords[k]));
        if k > 0 {
          assert keywords[1..][k - 1] == keywords[k];
        }
      }
    }
  }

  /** `[l for l in lines if any(...)]`. */
  function FilterLines(lines: seq<string>, keywords: seq<string>): (r: seq<string>)
    ensures |r| <= |lines|
    ensures forall i :: 0 <= i < |r| ==> r[i] in lines && Matches(r[i], keywords)
    decreases |lines|
  {
    if lines == [] then []
    else
      var kept := FilterLines(lines[..|lines| - 1], keywords);
      var last := lines[|lines| - 1];
      if Matches(last, keywords) then kept + [last] else kept
  }

  /** The positions of the lines the filter keeps. */
  function KeptPositions(lines: seq<string>, keywords: seq<string>): (idx: seq<int>)
    ensures |idx| == |FilterLines(lines, keywords)|
    ensures forall j :: 0 <= j < |idx| ==> 0 <= idx[j] < |lines|
    decreases |lines|
  {
    if lines == [] then []
    else
      var n := |lines| - 1;
      var prev := KeptPositions(lines[..n], keywords);
      if Matches(lines[n], keywords) then prev + [n] else prev
  }

  predicate Increasing(s: seq<int>) {
    forall j, k :: 0 <= j < k < |s| ==> s[j] < s[k]
  }

  /** The filter keeps the lines in their order: the kept positions increase. */
  lemma {:induction false} KeptPositionsIncrease(lines: seq<string>, keywords: seq<string>)
    ensures Increasing(KeptPositions(lines, keywords))
    decreases |lines|
  {
    if lines != [] {
      var n := |lines| - 1;
      KeptPositionsIncrease(lines[..n], keywords);
      var prev := KeptPositions(lines[..n], keywords);
      assert Increasing(prev);
      var idx := KeptPositions(lines, keywords);
      assert idx == if Matches(lines[n], keywords) then prev + [n] else prev;
      forall j, k | 0 <= j < k < |idx|
        ensures idx[j] < idx[k]
      {
        assert idx[j] == prev[j] && prev[j] < |lines[..n]| == n;
        if k < |prev| {
          assert idx[k] == prev[k];
        } else {
          assert idx[k] == n;
        }
      }
    }
  }

  /** Each kept line is the line at its kept position. */
  lemma {:induction false} KeptLinesAtPositions(lines: seq<string>, keywords: seq<string>)
    ensures var idx := KeptPositions(lines, keywords);
      forall j :: 0 <= j < |idx| ==> FilterLines(lines, keywords)[j] == lines[idx[j]]
    decreases |lines|
  {
    if lines != [] {
      var n := |lines| - 1;
      var prefix := lines[..n];
      KeptLinesAtPositions(prefix, keywords);
      var prev := KeptPositions(prefix, keywords);
      var kept := FilterLines(prefix, keywords);
      assert forall j :: 0 <= j < |prev| ==> kept[j] == prefix[prev[j]] == lines[prev[j]];
    }
  }

  /** A position is kept exactly when its line matches: no matching line is lost. */
  lemma {:induction false} KeptPositionsExact(lines: seq<string>, keywords: seq<string>)
    ensures forall i :: 0 <= i < |lines| ==> (Matches(lines[i], keywords) <==> i in KeptPositions(lines, keywords))
    decreases |lines|
  {
    if lines != [] {
      var n := |lines| - 1;
      var prefix := lines[..n];
      KeptPositionsExact(prefix, keywords);
      var prev := KeptPositions(prefix, keywords);
      var idx := KeptPositions(lines, keywords);
      assert idx == if Matches(lines[n], keywords) then prev + [n] else prev;
      assert forall j :: 0 <= j < |prev| ==> prev[j] < n;
      forall i | 0 <= i < |lines|
        ensures Matches(lines[i], keywords) <==> i in idx
      {
        if i < n {
          assert lines[i] == prefix[i];
          assert Matches(prefix[i], keywords) <==> i in prev;
          assert i in idx <==> i in prev;
        } else {
          assert i == n && n !in prev;
        }
      }
    }
  }

  /** The empty keyword is inside every line, so a filter holding it keeps every line. */
  lemma {:induction false} EmptyKeywordKeepsAll(lines: seq<string>, keywords: seq<string>)
    requires "" in keywords
    ensures FilterLines(lines, keywords) == lines
    decreases |lines|
  {
    if lines != [] {
      var line := lines[|lines| - 1];
      var k :| 0 <= k < |keywords| && keywords[k] == "";
      assert Contains(Lower(line), Lower(keywords[k]));
      MatchesSomeKeyword(line, keywords);
      EmptyKeywordKeepsAll(lines[..|lines| - 1], keywords);
    }
  }

  // ---------- the endpoint ----------

  /** One element of the JSON answer: the parsed line, or `{"raw": line}` when it is not JSON. */
  datatype JsonItem = Parsed(line: string) | Raw(line: string)

  datatype Response =
    | PlainText(body: string)
    | JsonList(items: seq<JsonItem>)
    /** The event stream is built from these arguments; what it sends is not part of this model. */
    | EventStream(keywords: Option<seq<string>>, colorize: bool)

  datatype HttpError = HttpError(status: nat, detail: string)

  /** The filtered and coloured lines the endpoint answers with. */
  function ShownLines(tail: seq<string>, keywords: Option<seq<string>>, color: bool): (r: seq<string>)
    ensures |r| <= |tail|
    ensures keywords.None? ==> |r| == |tail|
    ensures !color ==> forall i :: 0 <= i < |r| ==> r[i] in tail
    ensures keywords.None? && !color ==> r == tail
  {
    var kept := if keywords.Some? then FilterLines(tail, keywords.value) else tail;
    if color then seq(|kept|, i requires 0 <= i < |kept| => HighlightLine(kept[i])) else kept
  }

  /** The JSON items for a list of lines, given which lines parse as JSON. */
  function JsonItems(lines: seq<string>, parsesJson: string -> bool): (r: seq<JsonItem>)
    ensures |r| == |lines|
    ensures forall i :: 0 <= i < |r| ==> r[i].line == lines[i] && (r[i].Parsed? <==> parsesJson(lines[i]))
  {
    seq(|lines|, i requires 0 <= i < |lines| => if parsesJson(lines[i]) then Parsed(lines[i]) else Raw(lines[i]))
  }

  /**
   * `get_log_tail(lines, as_json, stream, filter, color)` on today's log
   * file, with `tail_file` as written; `parsesJson` says which lines
   * `json.loads` accepts.
   */
  method GetLogTail(file: Option<string>, lines: int, asJson: bool, stream: bool, filter: Option<string>,
                    color: bool, parsesJson: string -> bool)
    returns (r: Result<Response, HttpError>)
    requires 1 <= lines <= 1000
    ensures file.None? ==> r == Err(HttpError(404, NOT_FOUND))
    ensures file.Some? && stream ==> r == Ok(EventStream(Keywords(filter), color))
    ensures file.Some? && !stream ==>
      var shown := ShownLines(TailAsWritten(file.value, lines), Keywords(filter), color);
      r == Ok(if asJson then JsonList(JsonItems(shown, parsesJson)) else PlainText(Join(shown, "\n")))
  {
    if file.None? {
      return Err(HttpError(404, NOT_FOUND));
    }
    var keywords := Keywords(filter);
    if stream {
      return Ok(EventStream(keywords, color));
    }
    var tail := TailFileAsWritten(file, lines);
    var shown := ShownLines(tail.value, keywords, color);
    if asJson {
      var items := ToJson(shown, parsesJson);
      return Ok(JsonList(items));
    }
    return Ok(PlainText(Join(shown, "\n")));
  }

  /** The same endpoint on the corrected `TailFile`: its answer is built from the file's last lines. */
  method GetLogTailCorrected(file: Option<string>, lines: int, asJson: bool, stream: bool, filter: Option<string>,
                             color: bool, parsesJson: string -> bool)
    returns (r: Result<Response, HttpError>)
    requires 1 <= lines <= 1000
    ensures file.None? ==> r == Err(HttpError(404, NOT_FOUND))
    ensures file.Some? && stream ==> r == Ok(EventStream(Keywords(filter), color))
    ensures file.Some? && !stream ==>
      var shown := ShownLines(LastLines(SplitLines(file.value), lines), Keywords(filter), color);
      r == Ok(if asJson then JsonList(JsonItems(shown, parsesJson)) else PlainText(Join(shown, "\n")))
  {
    if file.None? {
      return Err(HttpError(404, NOT_FOUND));
    }
    var keywords := Keywords(filter);
    if stream {
      return Ok(EventStream(keywords, color));
    }
    var tail := TailFile(file, lines);
    var shown := ShownLines(tail.value, keywords, color);
    if asJson {
      var items := ToJson(shown, parsesJson);
      return Ok(JsonList(items));
    }
    return Ok(PlainText(Join(shown, "\n")));
  }

  /** The loop that builds the JSON answer, one item per line. */
  method ToJson(shown: seq<string>, parsesJson: string -> bool) returns (parsed: seq<JsonItem>)
    ensures parsed == JsonItems(shown, parsesJson)
  {
    parsed := [];
    for i := 0 to |shown|
      invariant parsed == JsonItems(shown[..i], parsesJson)
    {
      var item := if parsesJson(shown[i]) then Parsed(shown[i]) else Raw(shown[i]);
      assert shown[..i + 1] == shown[..i] + [shown[i]];
      parsed := parsed + [item];
    }
    assert shown[..|shown|] == shown;
  }

  /**
   * Without a filter and without colour, the endpoint as written answers a
   * file of at most one read with the file's last lines.
   */
  lemma PlainAnswerIsTail(data: string, lines: int)
    requires 1 <= lines && |data| <= CHUNK
    ensures ShownLines(TailAsWritten(data, lines), Keywords(None), false) == LastLines(SplitLines(data), lines)
    ensures |LastLines(SplitLines(data), lines)| <= lines
  {
    SmallFileAsWritten(data, lines);
  }
}
