/** The two log pumps: a line scanner over one fixed buffer, and an unlimited line reader. */
module Logging {
  import opened ByteStreams

  // ---------------------------------------------------------------- lines of a whole stream

  datatype Line = Line(text: bytes, terminated: bool)

  function FirstNewline(s: bytes): (i: nat)
    ensures i <= |s| && NEWLINE !in s[..i]
    ensures i < |s| ==> s[i] == NEWLINE
  {
    if s == [] || s[0] == NEWLINE then 0 else 1 + FirstNewline(s[1..])
  }

  function Lines(s: bytes): seq<Line>
    decreases |s|
  {
    if s == [] then []
    else
      var i := FirstNewline(s);
      if i < |s| then [Line(s[..i], true)] + Lines(s[i + 1..]) else [Line(s, false)]
  }

  /** The bytes of one line, with its newline if it has one. */
  function Raw(l: Line): bytes {
    if l.terminated then l.text + [NEWLINE] else l.text
  }

  function Unlines(ls: seq<Line>): bytes {
    if ls == [] then [] else Raw(ls[0]) + Unlines(ls[1..])
  }

  /** No newline inside a line, and only the last line may lack its own. */
  predicate Proper(ls: seq<Line>) {
    ls != [] ==>
      && NEWLINE !in ls[0].text
      && (ls[0].terminated || (ls[0].text != [] && |ls| == 1))
      && Proper(ls[1..])
  }

  /** What follows the first line. */
  function AfterFirst(s: bytes): (rest: bytes)
    ensures s != [] ==> |rest| < |s|
  {
    var i := FirstNewline(s);
    if i < |s| then s[i + 1..] else []
  }

  lemma FirstLine(s: bytes)
    requires s != []
    ensures |Lines(s)| > 0
    ensures Lines(s)[0] == Line(s[..FirstNewline(s)], FirstNewline(s) < |s|)
    ensures Lines(s)[1..] == Lines(AfterFirst(s))
  {
    var i := FirstNewline(s);
    if i < |s| {
      var rest := Lines(s[i + 1..]);
      assert ([Line(s[..i], true)] + rest)[1..] == rest;
    } else {
      assert s[..i] == s;
    }
  }

  lemma FirstLineAndRest(s: bytes)
    requires s != []
    ensures s == Raw(Line(s[..FirstNewline(s)], FirstNewline(s) < |s|)) + AfterFirst(s)
  {
    hide FirstNewline;
    var i := FirstNewline(s);
    if i < |s| {
      CutAt(s, i);
    } else {
      assert s[..i] == s;
    }
  }

  /** Splitting into lines loses nothing. */
  lemma {:induction false} LinesRoundTrip(s: bytes)
    ensures Unlines(Lines(s)) == s
    decreases |s|
  {
    if s != [] {
      FirstLine(s);
      FirstLineAndRest(s);
      LinesRoundTrip(AfterFirst(s));
    }
  }

  /** Splitting puts no newline into a line and leaves only the last line unterminated. */
  lemma {:induction false} LinesAreProper(s: bytes)
    ensures Proper(Lines(s))
    decreases |s|
  {
    if s != [] {
      FirstLine(s);
      LinesAreProper(AfterFirst(s));
      if FirstNewline(s) == |s| {
        assert Lines(s)[1..] == [];
        assert s[..|s|] == s;
      }
    }
  }

  /** Whether a scanner with a buffer of `m` bytes can hand out the line. */
  predicate Fits(line: Line, m: nat) {
    if line.terminated then |line.text| + 1 <= m else |line.text| < m
  }

  predicate AllFit(ls: seq<Line>, m: nat) {
    ls != [] ==> Fits(ls[0], m) && AllFit(ls[1..], m)
  }

  /** `text` without the one carriage return it may end in. */
  function DropCR(text: bytes): bytes {
    if text != [] && text[|text| - 1] == CARRIAGE_RETURN then text[..|text| - 1] else text
  }

  /** The texts the buffered pump logs: every line up to the first that does not fit, less its carriage return. */
  function BufferedTexts(ls: seq<Line>, m: nat): seq<bytes> {
    if ls == [] || !Fits(ls[0], m) then [] else [DropCR(ls[0].text)] + BufferedTexts(ls[1..], m)
  }

  /** The texts the unbuffered pump logs: every terminated line, newline included. */
  function UnbufferedTexts(ls: seq<Line>): seq<bytes> {
    if ls == [] || !ls[0].terminated then [] else [Raw(ls[0])] + UnbufferedTexts(ls[1..])
  }

  /** A text that ends in a carriage return is logged without it, any other one as it is. */
  predicate WithoutCR(text: bytes, token: bytes) {
    text == token + [13] || (text == token && (text == [] || text[|text| - 1] != 13))
  }

  lemma DropsCR(text: bytes)
    ensures WithoutCR(text, DropCR(text))
  {
  }

  /** The buffered texts are those of the leading lines that fit, all of them up to the first that does not. */
  lemma {:induction false} BufferedTextsAreLeading(ls: seq<Line>, m: nat)
    ensures var n := |BufferedTexts(ls, m)|;
            && n <= |ls| && (n == |ls| || !Fits(ls[n], m))
            && forall k :: 0 <= k < n ==> Fits(ls[k], m) && WithoutCR(ls[k].text, BufferedTexts(ls, m)[k])
    decreases |ls|
  {
    hide Fits, DropCR, WithoutCR;
    if ls != [] && Fits(ls[0], m) {
      DropsCR(ls[0].text);
      var rest := BufferedTexts(ls[1..], m);
      BufferedTextsAreLeading(ls[1..], m);
      assert BufferedTexts(ls, m) == [DropCR(ls[0].text)] + rest;
      assert forall k :: 1 <= k < |ls| ==> ls[k] == ls[1..][k - 1];
    }
  }

  // ---------------------------------------------------------------- the logger

  const COLON_SPACE: bytes := [58, 32]

  /** With log prefix, every text is preceded by the name of the pipe. */
  datatype Style = Style(logPrefix: bool, name: bytes)

  function Entry(style: Style, text: bytes): bytes {
    if style.logPrefix then style.name + COLON_SPACE + text else text
  }

  function Entries(style: Style, texts: seq<bytes>): seq<bytes> {
    if texts == [] then [] else [Entry(style, texts[0])] + Entries(style, texts[1..])
  }

  /** How entries are made of texts: with the prefix, the name, a colon, a space and the text; else the text alone. */
  ghost predicate Logs(entries: seq<bytes>, style: Style, texts: seq<bytes>) {
    && |entries| == |texts|
    && forall k :: 0 <= k < |texts| ==> entries[k] == (if style.logPrefix then style.name + [58, 32] else []) + texts[k]
  }

  lemma {:induction false} EntriesLog(style: Style, texts: seq<bytes>)
    ensures Logs(Entries(style, texts), style, texts)
    ensures !style.logPrefix ==> Entries(style, texts) == texts
    decreases |texts|
  {
    if texts != [] {
      EntriesLog(style, texts[1..]);
      assert [] + texts[0] == texts[0];
    }
  }

  /** A log entry always ends in a newline; the logger adds one only if it is missing. */
  function LogLine(entry: bytes): bytes {
    if entry != [] && entry[|entry| - 1] == NEWLINE then entry else entry + [NEWLINE]
  }

  /** The bytes a logger writes; `header(k)` is what stands before entry `k`, such as its time stamp. */
  function Written(header: nat -> bytes, entries: seq<bytes>, k: nat): bytes {
    if entries == [] then [] else header(k) + LogLine(entries[0]) + Written(header, entries[1..], k + 1)
  }

  function NoHeader(): nat -> bytes {
    k => []
  }

  /** `log.Logger`: the entries printed so far. */
  class Logger {
    var entries: seq<bytes>

    constructor ()
      ensures entries == []
    {
      entries := [];
    }

    method Print(entry: bytes)
      modifies this
      ensures entries == old(entries) + [entry]
    {
      entries := entries + [entry];
    }
  }

  // ---------------------------------------------------------------- the log as bytes

  /** The log of the buffered pump without prefix and headers. */
  function BufferedOutput(s: bytes, m: nat): bytes {
    Written(NoHeader(), BufferedTexts(Lines(s), m), 0)
  }

  /** The log of the unbuffered pump without prefix and headers. */
  function UnbufferedOutput(s: bytes): bytes {
    Written(NoHeader(), UnbufferedTexts(Lines(s)), 0)
  }

  /** Everything up to the last newline. */
  function TerminatedPrefix(s: bytes): bytes {
    s[..|s| - TailLength(s)]
  }

  lemma {:induction false} NoHeaderAnywhere(entries: seq<bytes>, k: nat, k': nat)
    ensures Written(NoHeader(), entries, k) == Written(NoHeader(), entries, k')
    decreases |entries|
  {
    if entries != [] {
      NoHeaderAnywhere(entries[1..], k + 1, k' + 1);
    }
  }

  lemma WrittenStep(header: nat -> bytes, entry: bytes, entries: seq<bytes>, k: nat)
    ensures Written(header, [entry] + entries, k) == header(k) + LogLine(entry) + Written(header, entries, k + 1)
  {
    assert ([entry] + entries)[1..] == entries;
  }

  lemma PlainStep(entry: bytes, entries: seq<bytes>)
    ensures Written(NoHeader(), [entry] + entries, 0) == LogLine(entry) + Written(NoHeader(), entries, 0)
  {
    WrittenStep(NoHeader(), entry, entries, 0);
    NoHeaderAnywhere(entries, 0, 1);
    assert [] + LogLine(entry) == LogLine(entry);
  }

  /** One line and then the rest. */
  lemma BufferedOutputStep(s: bytes, m: nat)
    requires s != []
    ensures var l := Lines(s)[0];
            BufferedOutput(s, m)
            == if Fits(l, m) then DropCR(l.text) + [NEWLINE] + BufferedOutput(AfterFirst(s), m) else []
  {
    FirstLine(s);
    var l := Lines(s)[0];
    if Fits(l, m) {
      var text, rest := DropCR(l.text), BufferedTexts(Lines(AfterFirst(s)), m);
      assert BufferedTexts(Lines(s), m) == [text] + rest;
      PlainStep(text, rest);
      assert NEWLINE !in text;
    }
  }

  lemma UnbufferedOutputStep(s: bytes)
    requires s != [] && FirstNewline(s) < |s|
    ensures UnbufferedOutput(s) == Raw(Lines(s)[0]) + UnbufferedOutput(AfterFirst(s))
  {
    FirstLine(s);
    var line, texts := Raw(Lines(s)[0]), UnbufferedTexts(Lines(AfterFirst(s)));
    hide Lines, FirstNewline, AfterFirst, Written;
    assert UnbufferedTexts(Lines(s)) == [line] + texts;
    PlainStep(line, texts);
    EndsInNewline(Lines(s)[0]);
  }

  lemma EndsInNewline(l: Line)
    requires l.terminated
    ensures LogLine(Raw(l)) == Raw(l)
  {
  }

  lemma TerminatedPrefixStep(head: bytes, rest: bytes)
    requires head != [] && head[|head| - 1] == NEWLINE
    ensures TerminatedPrefix(head + rest) == head + TerminatedPrefix(rest)
  {
    TailAfterNewline(head, rest);
  }

  /** The unbuffered log is exactly the input up to its last newline. */
  lemma {:induction false} UnbufferedIsTerminatedPrefix(s: bytes)
    ensures UnbufferedOutput(s) == TerminatedPrefix(s)
    decreases |s|
  {
    if s != [] {
      FirstLine(s);
      if FirstNewline(s) == |s| {
        assert s[..|s|] == s;
        PlainTail(s);
      } else {
        FirstLineAndRest(s);
        UnbufferedOutputStep(s);
        UnbufferedIsTerminatedPrefix(AfterFirst(s));
        TerminatedPrefixStep(Raw(Lines(s)[0]), AfterFirst(s));
      }
    }
  }

  // ---------------------------------------------------------------- the two modes compared

  /** Every line is terminated, fits, and has no carriage return before its newline. */
  predicate Plain(ls: seq<Line>, m: nat) {
    ls != [] ==> ls[0].terminated && Fits(ls[0], m) && DropCR(ls[0].text) == ls[0].text && Plain(ls[1..], m)
  }

  /** The buffered pump reproduces a stream byte for byte exactly if its lines are plain. */
  lemma {:induction false} BufferedIsExactIff(s: bytes, m: nat)
    ensures BufferedOutput(s, m) == s <==> Plain(Lines(s), m)
    decreases |s|
  {
    if s != [] {
      FirstLine(s);
      FirstLineAndRest(s);
      BufferedOutputStep(s, m);
      BufferedIsExactIff(AfterFirst(s), m);
      CompareFirst(Lines(s)[0], AfterFirst(s), BufferedOutput(AfterFirst(s), m));
    }
  }

  /** A printed line followed by `out` equals the line itself followed by `rest` only if nothing was changed. */
  lemma CompareFirst(l: Line, rest: bytes, out: bytes)
    requires NEWLINE !in l.text && (!l.terminated ==> rest == [])
    ensures DropCR(l.text) + [NEWLINE] + out == Raw(l) + rest
            <==> l.terminated && DropCR(l.text) == l.text && out == rest
  {
    var a := DropCR(l.text) + [NEWLINE] + out;
    var b := Raw(l) + rest;
    var n := |DropCR(l.text)|;
    assert a[n] == NEWLINE;
    if n < |l.text| {
      assert b[n] == l.text[n];
    } else if l.terminated {
      assert a[n + 1..] == out && b[n + 1..] == rest;
    }
  }

  /** The terminated prefix is the longest prefix that is empty or ends in a newline. */
  lemma TerminatedPrefixIsLongest(s: bytes, k: nat)
    requires k <= |s|
    ensures var p := TerminatedPrefix(s); p <= s && (p == [] || p[|p| - 1] == 10)
    ensures k == 0 || s[k - 1] == 10 ==> k <= |TerminatedPrefix(s)|
  {
    TailHasNoNewline(s);
  }

  lemma {:induction false} TailHasNoNewline(s: bytes)
    ensures var n := |s| - TailLength(s); (n == 0 || s[n - 1] == NEWLINE) && NEWLINE !in s[n..]
    decreases |s|
  {
    if s != [] && s[|s| - 1] != NEWLINE {
      var init := s[..|s| - 1];
      TailHasNoNewline(init);
      var n := |s| - TailLength(s);
      assert s[n..] == init[n..] + [s[|s| - 1]];
    }
  }

  /** On a stream without unterminated tail, misfits and CR LF, both modes reproduce the input; and with a prefix
      or headers they still write the same log. */
  lemma ModesAgree(s: bytes, m: nat, style: Style, header: nat -> bytes)
    requires TailLength(s) == 0 && AllFit(Lines(s), m) && NoCRLF(s)
    ensures BufferedOutput(s, m) == s == UnbufferedOutput(s)
    ensures Written(header, Entries(style, BufferedTexts(Lines(s), m)), 0)
            == Written(header, Entries(style, UnbufferedTexts(Lines(s))), 0)
  {
    CleanLines(s, m);
    BufferedIsExactIff(s, m);
    UnbufferedIsTerminatedPrefix(s);
    LinesAreProper(s);
    SameLog(Lines(s), m, style, header, 0);
  }

  lemma {:induction false} SameLog(ls: seq<Line>, m: nat, style: Style, header: nat -> bytes, k: nat)
    requires Plain(ls, m) && Proper(ls)
    ensures Written(header, Entries(style, BufferedTexts(ls, m)), k)
            == Written(header, Entries(style, UnbufferedTexts(ls)), k)
    decreases |ls|
  {
    if ls != [] {
      var buffered, unbuffered := BufferedTexts(ls[1..], m), UnbufferedTexts(ls[1..]);
      SameLog(ls[1..], m, style, header, k + 1);
      SameEntry(ls[0], style);
      EntriesStep(style, ls[0].text, buffered);
      EntriesStep(style, Raw(ls[0]), unbuffered);
      WrittenStep(header, Entry(style, ls[0].text), Entries(style, buffered), k);
      WrittenStep(header, Entry(style, Raw(ls[0])), Entries(style, unbuffered), k);
    }
  }

  lemma SameEntry(l: Line, style: Style)
    requires l.terminated && NEWLINE !in l.text
    ensures LogLine(Entry(style, l.text)) == LogLine(Entry(style, Raw(l)))
  {
    assert Entry(style, Raw(l)) == Entry(style, l.text) + [NEWLINE];
  }

  lemma EntriesStep(style: Style, text: bytes, texts: seq<bytes>)
    ensures Entries(style, [text] + texts) == [Entry(style, text)] + Entries(style, texts)
  {
    assert ([text] + texts)[1..] == texts;
  }

  predicate NoCRLF(s: bytes) {
    forall k :: 0 < k < |s| && s[k] == NEWLINE ==> s[k - 1] != CARRIAGE_RETURN
  }

  lemma CleanRest(s: bytes, i: nat)
    requires i < |s| && s[i] == NEWLINE && NoCRLF(s) && TailLength(s) == 0
    ensures NoCRLF(s[i + 1..]) && TailLength(s[i + 1..]) == 0
    ensures DropCR(s[..i]) == s[..i]
  {
    var rest := s[i + 1..];
    forall k | 0 < k < |rest| && rest[k] == NEWLINE ensures rest[k - 1] != CARRIAGE_RETURN {
      assert s[i + 1 + k] == NEWLINE;
    }
  }

  lemma {:induction false} CleanLines(s: bytes, m: nat)
    requires TailLength(s) == 0 && AllFit(Lines(s), m) && NoCRLF(s)
    ensures Plain(Lines(s), m)
    decreases |s|
  {
    if s != [] {
      FirstLine(s);
      var i := FirstNewline(s);
      assert i < |s| by {
        assert s[|s| - 1] == NEWLINE && NEWLINE !in s[..i];
      }
      CleanRest(s, i);
      CleanLines(s[i + 1..], m);
    }
  }

  // ---------------------------------------------------------------- when the buffered pump gives up

  /** No prefix of the stream ends in an unfinished line that fills a buffer of `m` bytes. */
  predicate NeverFull(s: bytes, m: nat) {
    forall k :: 0 <= k <= |s| ==> TailLength(s[..k]) < m
  }

  /** A scanner with a non-empty buffer is never full over a whole stream exactly if all of its lines fit. */
  lemma {:induction false} NeverFullIffAllFit(s: bytes, m: nat)
    requires m > 0
    ensures NeverFull(s, m) <==> AllFit(Lines(s), m)
    decreases |s|
  {
    if s != [] {
      FirstLine(s);
      var i := FirstNewline(s);
      PrefixTails(s, i);
      NeverFullIffAllFit(AfterFirst(s), m);
      if i < |s| {
        SplitNeverFull(s, i, m);
      } else {
        assert TailLength(s[..i]) == i;
      }
    } else {
      assert TailLength(s[..0]) == 0;
    }
  }

  lemma PrefixTails(s: bytes, i: nat)
    requires i <= |s| && NEWLINE !in s[..i]
    ensures forall k :: 0 <= k <= i ==> TailLength(s[..k]) == k
  {
    forall k | 0 <= k <= i ensures TailLength(s[..k]) == k {
      assert s[..k] == s[..i][..k];
      PlainTail(s[..k]);
    }
  }

  lemma SplitNeverFull(s: bytes, i: nat, m: nat)
    requires i < |s| && s[i] == NEWLINE && NEWLINE !in s[..i] && m > 0
    ensures NeverFull(s, m) <==> i < m && NeverFull(s[i + 1..], m)
  {
    var rest := s[i + 1..];
    PrefixTails(s, i);
    forall k | 0 <= k <= |rest| ensures TailLength(s[..i + 1 + k]) == TailLength(rest[..k]) {
      assert s[..i + 1 + k] == s[..i + 1] + rest[..k];
      TailAfterNewline(s[..i + 1], rest[..k]);
    }
    if NeverFull(s, m) {
      assert TailLength(s[..i]) == i;
    } else {
      var k :| 0 <= k <= |s| && TailLength(s[..k]) >= m;
      if k > i {
        assert TailLength(s[..i + 1 + (k - i - 1)]) == TailLength(rest[..k - i - 1]);
      }
    }
  }

  lemma {:induction false} PlainTail(s: bytes)
    requires NEWLINE !in s
    ensures TailLength(s) == |s|
    decreases |s|
  {
    if s != [] {
      PlainTail(s[..|s| - 1]);
    }
  }

  lemma {:induction false} TailAfterNewline(head: bytes, more: bytes)
    requires head != [] && head[|head| - 1] == NEWLINE
    ensures TailLength(head + more) == TailLength(more)
    decreases |more|
  {
    if more == [] {
      assert head + more == head;
    } else if more[|more| - 1] != NEWLINE {
      TailAfterNewline(head, more[..|more| - 1]);
      assert (head + more)[..|head + more| - 1] == head + more[..|more| - 1];
    }
  }

  lemma {:induction false} FirstNewlineBeyond(s: bytes, i: nat)
    requires i <= |s| && NEWLINE !in s[..i]
    ensures i <= FirstNewline(s)
    decreases i
  {
    if i > 0 {
      assert s[0] == s[..i][0];
      assert s[1..][..i - 1] == s[..i][1..];
      FirstNewlineBeyond(s[1..], i - 1);
    }
  }

  lemma FirstNewlineIs(s: bytes, i: nat)
    requires i <= |s| && NEWLINE !in s[..i] && (i < |s| ==> s[i] == NEWLINE)
    ensures FirstNewline(s) == i
  {
    FirstNewlineBeyond(s, i);
    var upToHere := s[..FirstNewline(s)];
    assert forall k :: 0 <= k < |upToHere| ==> s[k] == upToHere[k];
  }

  /** `token` is the first line of `all`, without carriage return, and `rest` is what follows that line. */
  predicate HandsOut(all: bytes, token: bytes, rest: bytes, m: nat) {
    var ls := Lines(all);
    && ls != [] && Fits(ls[0], m)
    && token == DropCR(ls[0].text)
    && rest == AfterFirst(all)
  }

  lemma PrintsAndGoesOn(all: bytes, token: bytes, rest: bytes, m: nat, style: Style)
    requires HandsOut(all, token, rest, m)
    ensures Entries(style, BufferedTexts(Lines(all), m))
            == [Entry(style, token)] + Entries(style, BufferedTexts(Lines(rest), m))
    ensures AllFit(Lines(all), m) <==> AllFit(Lines(rest), m)
    ensures |rest| < |all|
  {
    FirstLine(all);
    EntriesStep(style, token, BufferedTexts(Lines(rest), m));
  }

  lemma TerminatedLine(all: bytes, n: nat, m: nat)
    requires n < |all| && all[n] == NEWLINE && NEWLINE !in all[..n] && n < m
    ensures HandsOut(all, DropCR(all[..n]), all[n + 1..], m)
  {
    FirstNewlineIs(all, n);
    FirstLine(all);
  }

  lemma FinalLine(all: bytes, m: nat)
    requires all != [] && NEWLINE !in all && |all| < m
    ensures HandsOut(all, DropCR(all), [], m)
  {
    assert all[..|all|] == all;
    FirstNewlineIs(all, |all|);
    FirstLine(all);
  }

  /** A full buffer without newline: the line it belongs to does not fit. */
  lemma NeverFits(all: bytes, m: nat)
    requires m <= |all| && NEWLINE !in all[..m]
    ensures Lines(all) == [] || !Fits(Lines(all)[0], m)
    ensures m > 0 ==> Lines(all) != []
  {
    if all != [] {
      FirstLine(all);
      FirstNewlineBeyond(all, m);
    }
  }

  // ---------------------------------------------------------------- the byte source

  /** The read end of a pipe. Each read hands out some non-empty chunk of what is still to come; how much is up
      to the kernel. After the last byte the stream ends, or breaks with an I/O error. */
  class Source {
    var remaining: bytes
    const broken: bool

    constructor (stream: bytes, broken: bool)
      ensures remaining == stream && this.broken == broken
    {
      remaining := stream;
      this.broken := broken;
    }

    method Read(room: nat) returns (chunk: bytes)
      requires room > 0
      modifies this
      ensures old(remaining) == chunk + remaining && |chunk| <= room
      ensures old(remaining) != [] ==> chunk != []
    {
      if remaining == [] {
        return [];
      }
      var most := if room < |remaining| then room else |remaining|;
      var n: nat :| 1 <= n <= most;
      chunk, remaining := remaining[..n], remaining[n..];
    }
  }

  // ---------------------------------------------------------------- bufio.Scanner

  datatype ScanError = NoError | AtEnd | ReadError | TooLong

  /** Why there is no further line in `all`: it does not fit, or the stream is over. */
  predicate Ended(all: bytes, err: ScanError, m: nat, broken: bool) {
    && (Lines(all) == [] || !Fits(Lines(all)[0], m))
    && (err == TooLong <==> m == 0 || Lines(all) != [])
    && (err != TooLong ==> err == if broken then ReadError else AtEnd)
  }

  /** A scanner whose buffer is handed in at its maximal size and therefore never grows. */
  class Scanner {
    const buf: array<byte>
    var start: nat
    var end: nat
    var err: ScanError
    const source: Source

    ghost predicate Valid()
      reads this, source
    {
      && start <= end <= buf.Length
      && (err.AtEnd? || err.ReadError? ==> source.remaining == [] && end - start < buf.Length)
      && (err.AtEnd? ==> !source.broken)
      && (err.ReadError? ==> source.broken)
    }

    /** Everything not handed out yet: the filled part of the buffer and what is still in the pipe. */
    ghost function Unread(): bytes
      requires Valid()
      reads this, source, buf
    {
      buf[start..end] + source.remaining
    }

    /** What a call of `Scan` has made of `all`, the bytes unread before it: the next line if the buffer can hold it;
        otherwise nothing, either because the buffer is full of an unfinished line or because the stream is over. */
    ghost predicate Found(all: bytes, ok: bool, token: bytes)
      reads this, source, buf
    {
      && Valid()
      && (ok ==> HandsOut(all, token, Unread(), buf.Length) && err != TooLong)
      && (!ok ==>
            && Ended(all, err, buf.Length, source.broken) && Unread() == all
            && (err != TooLong ==> source.remaining == [])
            && (err == TooLong ==> start == 0 && end == buf.Length && NEWLINE !in buf[..]))
    }

    constructor (source: Source, m: nat)
      ensures Valid() && fresh(buf) && buf.Length == m && this.source == source
      ensures err == NoError && start == end
    {
      this.source := source;
      buf := new byte[m](_ => 0);
      start, end, err := 0, 0, NoError;
    }

    /** Moves the unread part to the front of the buffer. */
    method Shift()
      requires Valid()
      modifies this`start, this`end, buf
      ensures Valid() && Unread() == old(Unread())
      ensures start == 0 && end == old(end) - old(start) && buf[start..end] == old(buf[start..end])
    {
      var n := end - start;
      forall k | 0 <= k < n {
        buf[k] := buf[start + k];
      }
      assert buf[..n] == old(buf[start..end]);
      start, end := 0, n;
    }

    /** One read into the free part of the buffer. */
    method Fill()
      requires Valid() && err == NoError && end < buf.Length
      modifies this`end, this`err, buf, source
      ensures Valid() && Unread() == old(Unread()) && start == old(start)
      ensures !err.TooLong? && |source.remaining| <= old(|source.remaining|)
      ensures |source.remaining| < old(|source.remaining|) || err != NoError
    {
      var chunk := source.Read(buf.Length - end);
      if chunk == [] {
        err := if source.broken then ReadError else AtEnd;
        assert buf[start..end] + [] == buf[start..end];
        return;
      }
      ghost var before := buf[start..end];
      forall k | 0 <= k < |chunk| {
        buf[end + k] := chunk[k];
      }
      end := end + |chunk|;
      assert buf[start..end] == before + chunk;
    }

    /** `ScanLines` on the filled part: a whole line, or at the end of the stream what is left of it. */
    method Split() returns (found: bool, token: bytes)
      requires Valid() && err != TooLong
      modifies this`start
      ensures Valid()
      ensures found ==> HandsOut(old(Unread()), token, Unread(), buf.Length)
      ensures !found ==> start == old(start) && NEWLINE !in buf[start..end] && (err != NoError ==> start == end)
    {
      hide HandsOut;
      ghost var all := Unread();
      var i := IndexNewline();
      if i < end {
        token := DropCR(buf[start..i]);
        ghost var filled, n := buf[start..end], i - start;
        assert filled[..n] == buf[start..i] && filled[n + 1..] == buf[i + 1..end];
        CutInside(filled, source.remaining, n);
        TerminatedLine(all, n, buf.Length);
        start := i + 1;
        return true, token;
      }
      if err != NoError && start < end {
        token := DropCR(buf[start..end]);
        assert all == buf[start..end];
        FinalLine(all, buf.Length);
        start := end;
        assert Unread() == [];
        return true, token;
      }
      return false, [];
    }

    /** `Scan` with the line-splitting function: hands out the next line if the buffer can hold it. */
    method Scan() returns (ok: bool, token: bytes)
      requires Valid() && err != TooLong
      modifies this`start, this`end, this`err, buf, source
      ensures Found(old(Unread()), ok, token)
    {
      ghost var all := Unread();
      while true
        invariant Valid() && Unread() == all && err != TooLong
        decreases |source.remaining|, if err == NoError then 1 else 0
      {
        if end > start || err != NoError {
          ok, token := Split();
          if ok {
            return;
          }
        }
        assert NEWLINE !in buf[start..end];
        if err != NoError {
          assert all == [];
          return false, [];
        }
        if start > 0 && (end == buf.Length || start > buf.Length / 2) {
          Shift();
        }
        if end == buf.Length {
          assert all[..end - start] == buf[start..end];
          NeverFits(all, buf.Length);
          err := TooLong;
          assert Unread() == all && buf[..] == buf[start..end];
          return false, [];
        }
        Fill();
      }
    }

    /** `bytes.IndexByte`: the first newline in the filled part, or its end. */
    method IndexNewline() returns (i: nat)
      requires Valid()
      ensures start <= i <= end && NEWLINE !in buf[start..i]
      ensures i < end ==> buf[i] == NEWLINE
    {
      i := start;
      while i < end && buf[i] != NEWLINE
        invariant start <= i <= end && NEWLINE !in buf[start..i]
      {
        i := i + 1;
      }
    }
  }

  // ---------------------------------------------------------------- the pumps

  /** `n` bytes were taken from the stream: all of it, or up to the first point where an unfinished line fills a
      buffer of `m` bytes. */
  predicate Taken(stream: bytes, n: nat, m: nat) {
    && n <= |stream|
    && (n == |stream| || TailLength(stream[..n]) >= m)
    && forall k :: 0 <= k < n ==> TailLength(stream[..k]) < m
  }

  predicate TakenFrom(stream: bytes, rest: bytes, m: nat) {
    && |rest| <= |stream|
    && stream[|stream| - |rest|..] == rest
    && Taken(stream, |stream| - |rest|, m)
  }

  /** What the scanner has handed out: whole lines, none of which ever filled the buffer. */
  predicate HandedOut(given: bytes, left: bytes, m: nat) {
    given != [] ==> NeverFull(given, m) && (given[|given| - 1] == NEWLINE || left == [])
  }

  lemma HandsOutFirst(all: bytes, token: bytes, rest: bytes, m: nat) returns (l: Line)
    requires HandsOut(all, token, rest, m)
    ensures |rest| < |all| && all == Raw(l) + rest
    ensures NEWLINE !in l.text && Fits(l, m) && Raw(l) != [] && (l.terminated || rest == [])
  {
    FirstLine(all);
    FirstLineAndRest(all);
    l := Lines(all)[0];
  }

  /** One more fitting line after whole lines keeps the buffer from ever being full. */
  lemma NeverFullMore(given: bytes, l: Line, m: nat)
    requires NEWLINE !in l.text && Fits(l, m) && Raw(l) != []
    requires given != [] ==> NeverFull(given, m) && given[|given| - 1] == NEWLINE
    ensures NeverFull(given + Raw(l), m)
  {
    var raw := Raw(l);
    hide TailLength, Fits, Raw;
    forall k | 0 <= k <= |given + raw| ensures TailLength((given + raw)[..k]) < m {
      if k > |given| {
        assert (given + raw)[..k] == given + raw[..k - |given|];
        LineTail(given, l, k - |given|, m);
      } else if given != [] {
        assert (given + raw)[..k] == given[..k];
      } else {
        assert (given + raw)[..k] == [];
        EmptyTail(l, m);
      }
    }
  }

  lemma EmptyTail(l: Line, m: nat)
    requires Fits(l, m)
    ensures TailLength([]) < m
  {
  }

  lemma HandsOutMore(given: bytes, left: bytes, token: bytes, rest: bytes, m: nat)
    requires HandedOut(given, left, m) && HandsOut(left, token, rest, m)
    ensures |rest| < |left| && left == left[..|left| - |rest|] + rest
    ensures HandedOut(given + left[..|left| - |rest|], rest, m)
  {
    hide HandsOut, Fits, NeverFull;
    var l := HandsOutFirst(left, token, rest, m);
    assert left[..|left| - |rest|] == Raw(l);
    NeverFullMore(given, l, m);
  }

  lemma LineTail(given: bytes, l: Line, r: nat, m: nat)
    requires NEWLINE !in l.text && Fits(l, m) && 0 < r <= |Raw(l)|
    requires given == [] || given[|given| - 1] == NEWLINE
    ensures TailLength(given + Raw(l)[..r]) < m
  {
    var part := Raw(l)[..r];
    assert TailLength(part) < m by {
      if r <= |l.text| {
        assert part == l.text[..r];
        PlainTail(part);
      }
    }
    hide TailLength, Fits;
    if given == [] {
      assert given + part == part;
    } else {
      TailAfterNewline(given, part);
    }
  }

  /** A full buffer: what was taken is what was handed out, and the buffer. */
  lemma StopsFull(given: bytes, full: bytes, more: bytes, m: nat)
    requires given == [] || (NeverFull(given, m) && given[|given| - 1] == NEWLINE)
    requires |full| == m && NEWLINE !in full
    ensures Taken(given + full + more, |given + full|, m)
  {
    var stream, n := given + full + more, |given + full|;
    forall r | 0 <= r <= m ensures TailLength(given + full[..r]) == r {
      PlainTail(full[..r]);
      if given == [] {
        assert given + full[..r] == full[..r];
      } else {
        TailAfterNewline(given, full[..r]);
      }
    }
    assert stream[..n] == given + full[..m];
    forall k | 0 <= k < n ensures TailLength(stream[..k]) < m {
      if k < |given| {
        assert stream[..k] == given[..k];
      } else {
        assert stream[..k] == given + full[..k - |given|];
      }
    }
  }

  /** Half-way through: `given` has been logged, `left` has not, and together they are the stream. */
  predicate Halfway(all: bytes, given: bytes, left: bytes, logged: seq<bytes>, style: Style, m: nat) {
    && all == given + left
    && HandedOut(given, left, m)
    && logged + Entries(style, BufferedTexts(Lines(left), m)) == Entries(style, BufferedTexts(Lines(all), m))
    && (AllFit(Lines(left), m) <==> AllFit(Lines(all), m))
  }

  lemma Starts(all: bytes, style: Style, m: nat)
    ensures Halfway(all, [], all, [], style, m)
  {
    assert [] + all == all;
    assert [] + Entries(style, BufferedTexts(Lines(all), m)) == Entries(style, BufferedTexts(Lines(all), m));
  }

  lemma GoesOn(all: bytes, given: bytes, left: bytes, logged: seq<bytes>, token: bytes, rest: bytes,
               style: Style, m: nat)
    requires Halfway(all, given, left, logged, style, m) && HandsOut(left, token, rest, m)
    ensures |rest| < |left|
    ensures Halfway(all, given + left[..|left| - |rest|], rest, logged + [Entry(style, token)], style, m)
  {
    hide HandsOut, HandedOut, BufferedTexts, AllFit, Lines, Entries, Entry;
    PrintsAndGoesOn(left, token, rest, m, style);
    HandsOutMore(given, left, token, rest, m);
    assert given + left[..|left| - |rest|] + rest == given + left;
  }

  /** `full` is the scanner's buffer at the moment it gave up, `more` what is left in the pipe. */
  lemma Stops(all: bytes, given: bytes, left: bytes, logged: seq<bytes>, err: ScanError, broken: bool,
              full: bytes, more: bytes, style: Style, m: nat)
    requires Halfway(all, given, left, logged, style, m) && Ended(left, err, m, broken)
    requires err == TooLong ==> left == full + more && |full| == m && NEWLINE !in full
    requires err != TooLong ==> more == []
    ensures logged == Entries(style, BufferedTexts(Lines(all), m))
    ensures err == TooLong <==> m == 0 || !AllFit(Lines(all), m)
    ensures err != TooLong ==> err == if broken then ReadError else AtEnd
    ensures TakenFrom(all, more, m)
  {
    NothingMore(left, err, m, broken, style);
    assert logged + [] == logged;
    hide AllFit, Lines, BufferedTexts, Entries, TakenFrom;
    if err == TooLong {
      Stopped(given, full, more, m);
    } else {
      ReadToTheEnd(all, m);
    }
  }

  lemma ScannerStops(scanner: Scanner, all: bytes, given: bytes, left: bytes, logged: seq<bytes>, token: bytes,
                     style: Style, m: nat)
    requires scanner.Found(left, false, token) && scanner.buf.Length == m
    requires Halfway(all, given, left, logged, style, m)
    ensures logged == Entries(style, BufferedTexts(Lines(all), m))
    ensures scanner.err == TooLong <==> m == 0 || !AllFit(Lines(all), m)
    ensures scanner.err != TooLong ==> scanner.err == if scanner.source.broken then ReadError else AtEnd
    ensures TakenFrom(all, scanner.source.remaining, m)
  {
    hide Ended, Halfway, AllFit, Lines, BufferedTexts, Entries, TakenFrom;
    if scanner.err == TooLong {
      assert scanner.buf[..] == scanner.buf[scanner.start..scanner.end];
    }
    Stops(all, given, left, logged, scanner.err, scanner.source.broken, scanner.buf[..], scanner.source.remaining,
          style, m);
  }

  lemma NothingMore(all: bytes, err: ScanError, m: nat, broken: bool, style: Style)
    requires Ended(all, err, m, broken)
    ensures Entries(style, BufferedTexts(Lines(all), m)) == []
    ensures err == TooLong <==> m == 0 || !AllFit(Lines(all), m)
    ensures err != TooLong ==> all == [] && err == if broken then ReadError else AtEnd
  {
  }

  lemma Stopped(given: bytes, full: bytes, more: bytes, m: nat)
    requires HandedOut(given, full + more, m) && |full| == m && NEWLINE !in full
    ensures TakenFrom(given + (full + more), more, m)
  {
    if full + more != [] {
      StopsFull(given, full, more, m);
    } else {
      var start := TailLength(given[..0]);
    }
    assert given + full + more == given + (full + more);
  }

  lemma ReadToTheEnd(all: bytes, m: nat)
    requires m > 0 && AllFit(Lines(all), m)
    ensures TakenFrom(all, [], m)
  {
    NeverFullIffAllFit(all, m);
  }

  lemma BufferedLog(stream: bytes, style: Style, m: nat)
    ensures var texts := BufferedTexts(Lines(stream), m);
            && Logs(Entries(style, texts), style, texts)
            && (!style.logPrefix ==>
                  (Written(NoHeader(), Entries(style, texts), 0) == stream <==> Plain(Lines(stream), m)))
  {
    EntriesLog(style, BufferedTexts(Lines(stream), m));
    BufferedIsExactIff(stream, m);
  }

  lemma UnbufferedLog(stream: bytes, style: Style)
    ensures var texts := UnbufferedTexts(Lines(stream));
            && Logs(Entries(style, texts), style, texts)
            && (!style.logPrefix ==> Written(NoHeader(), Entries(style, texts), 0) == TerminatedPrefix(stream))
  {
    EntriesLog(style, UnbufferedTexts(Lines(stream)));
    UnbufferedIsTerminatedPrefix(stream);
  }

  /** `pipeBuffered`. Where it stops reading, the stderr pipe is left to fill up. */
  method PipeBuffered(source: Source, logger: Logger, style: Style, m: nat) returns (failure: ScanError)
    modifies source, logger
    ensures logger.entries == old(logger.entries) + Entries(style, BufferedTexts(Lines(old(source.remaining)), m))
    ensures var added, all := logger.entries[|old(logger.entries)|..], old(source.remaining);
            && Logs(added, style, BufferedTexts(Lines(all), m))
            && (!style.logPrefix ==> (Written(NoHeader(), added, 0) == all <==> Plain(Lines(all), m)))
    ensures failure == TooLong <==> m == 0 || !AllFit(Lines(old(source.remaining)), m)
    ensures failure != TooLong ==> failure == (if source.broken then ReadError else AtEnd)
    ensures TakenFrom(old(source.remaining), source.remaining, m)
  {
    hide HandsOut, Ended, Halfway, TakenFrom, AllFit, Lines, BufferedTexts, Entries, Entry, Logs, Written, Plain;
    var scanner := new Scanner(source, m);
    ghost var all := source.remaining;
    assert scanner.Unread() == all;
    ghost var given, left, logged: seq<bytes> := [], all, [];
    Starts(all, style, m);
    var ok, token := scanner.Scan();
    while ok
      invariant scanner.Found(left, ok, token)
      invariant logger.entries == old(logger.entries) + logged && Halfway(all, given, left, logged, style, m)
      decreases if ok then 1 + |left| else 0
    {
      GoesOn(all, given, left, logged, token, scanner.Unread(), style, m);
      logger.Print(Entry(style, token));
      logged := logged + [Entry(style, token)];
      given := given + left[..|left| - |scanner.Unread()|];
      left := scanner.Unread();
      ok, token := scanner.Scan();
    }
    failure := scanner.err;
    ScannerStops(scanner, all, given, left, logged, token, style, m);
    BufferedLog(all, style, m);
    assert logger.entries[|old(logger.entries)|..] == logged;
  }

  /** `bufio.Reader` as far as `ReadString` needs it: what has been read ahead, and the pipe. */
  class LineReader {
    var pending: bytes
    const source: Source

    ghost function Unread(): bytes
      reads this, source
    {
      pending + source.remaining
    }

    constructor (source: Source)
      ensures pending == [] && this.source == source
    {
      this.pending := [];
      this.source := source;
    }

    /** `ReadString`: up to and including the next newline, or all there is together with an error. */
    method ReadString() returns (line: bytes, ok: bool)
      modifies this, source
      ensures old(Unread()) == line + Unread()
      ensures ok ==> line != [] && line[|line| - 1] == 10 && 10 !in line[..|line| - 1]
      ensures !ok ==> 10 !in line && Unread() == []
    {
      while NEWLINE !in pending
        invariant Unread() == old(Unread())
        decreases |source.remaining|
      {
        var chunk := source.Read(4096);
        if chunk == [] {
          line, pending := pending, [];
          return line, false;
        }
        pending := pending + chunk;
      }
      var i := FirstNewline(pending);
      assert i < |pending| by {
        assert pending[..|pending|] == pending;
      }
      line, pending := pending[..i + 1], pending[i + 1..];
      assert line[..i] == old(Unread())[..i];
      return line, true;
    }
  }

  /** `pipeUnbuffered`. A read error ends it like the end of the stream. */
  method PipeUnbuffered(source: Source, logger: Logger, style: Style)
    modifies source, logger
    ensures logger.entries == old(logger.entries) + Entries(style, UnbufferedTexts(Lines(old(source.remaining))))
    ensures var added, all := logger.entries[|old(logger.entries)|..], old(source.remaining);
            && Logs(added, style, UnbufferedTexts(Lines(all)))
            && (!style.logPrefix ==> Written(NoHeader(), added, 0) == TerminatedPrefix(all))
    ensures source.remaining == []
  {
    hide UnbufferedTexts, Lines, Entries, Entry, Logs, Written, TerminatedPrefix;
    var reader := new LineReader(source);
    ghost var all := source.remaining;
    UnbufferedLog(all, style);
    ghost var entries := Entries(style, UnbufferedTexts(Lines(all)));
    assert (logger.entries + entries)[|logger.entries|..] == entries;
    assert reader.Unread() == all;
    while true
      invariant reader.source == source && fresh(reader)
      invariant logger.entries + Entries(style, UnbufferedTexts(Lines(reader.Unread())))
                == old(logger.entries) + Entries(style, UnbufferedTexts(Lines(all)))
      decreases |reader.Unread()|
    {
      ghost var left := reader.Unread();
      var line, ok := reader.ReadString();
      if !ok {
        assert left == line;
        NothingTerminated(line, style);
        return;
      }
      ReadsAndGoesOn(left, line, reader.Unread(), style);
      logger.Print(Entry(style, line));
    }
  }

  lemma ReadsAndGoesOn(all: bytes, line: bytes, rest: bytes, style: Style)
    requires all == line + rest
    requires line != [] && line[|line| - 1] == NEWLINE && NEWLINE !in line[..|line| - 1]
    ensures Entries(style, UnbufferedTexts(Lines(all)))
            == [Entry(style, line)] + Entries(style, UnbufferedTexts(Lines(rest)))
  {
    var n := |line| - 1;
    assert all[..n] == line[..n] && all[n + 1..] == rest;
    FirstNewlineIs(all, n);
    FirstLine(all);
    assert Raw(Line(line[..n], true)) == line;
    EntriesStep(style, line, UnbufferedTexts(Lines(rest)));
  }

  lemma NothingTerminated(tail: bytes, style: Style)
    requires NEWLINE !in tail
    ensures Entries(style, UnbufferedTexts(Lines(tail))) == []
  {
    if tail != [] {
      assert tail[..|tail|] == tail;
      FirstNewlineIs(tail, |tail|);
      FirstLine(tail);
    }
  }

  /** `bindLoggingPipe`: a negative buffer size selects the unbuffered mode. */
  method BindLoggingPipe(name: bytes, source: Source, logPrefix: bool, maxBufferSize: int) returns (logger: Logger)
    modifies source
    ensures fresh(logger)
    ensures var lines := Lines(old(source.remaining));
            logger.entries == Entries(Style(logPrefix, name),
                                      if maxBufferSize >= 0 then BufferedTexts(lines, maxBufferSize)
                                      else UnbufferedTexts(lines))
    ensures var all := old(source.remaining);
            if maxBufferSize >= 0 then
              && Logs(logger.entries, Style(logPrefix, name), BufferedTexts(Lines(all), maxBufferSize))
              && (!logPrefix ==>
                    (Written(NoHeader(), logger.entries, 0) == all <==> Plain(Lines(all), maxBufferSize)))
            else
              && Logs(logger.entries, Style(logPrefix, name), UnbufferedTexts(Lines(all)))
              && (!logPrefix ==> Written(NoHeader(), logger.entries, 0) == TerminatedPrefix(all))
  {
    hide BufferedTexts, UnbufferedTexts, Lines, Entries, Logs, Written, TerminatedPrefix, Plain;
    logger := new Logger();
    if maxBufferSize >= 0 {
      var failure := PipeBuffered(source, logger, Style(logPrefix, name), maxBufferSize);
    } else {
      PipeUnbuffered(source, logger, Style(logPrefix, name));
    }
  }
}
