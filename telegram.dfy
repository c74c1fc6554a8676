/** The Telegram client of src/telegram.ts. A message is a JavaScript string,
    so its `length` counts UTF-16 code units; texts here are sequences of
    code units. A text longer than 4096 units is split on line feeds into a
    greedy line buffer; buffers are sent trimmed and lines that do not fit a
    message are cut into fixed-size chunks. The HTTP exchange is abstracted
    to a `respond` function giving the reply to the request with a given
    number, and the methods return the messages they tried to send. */
module Telegram {
  import opened Common

  /** A UTF-16 code unit. */
  newtype CodeUnit = x: int | 0 <= x < 0x1_0000

  type Text = seq<CodeUnit>

  /** `MAX_MESSAGE_LENGTH`. */
  const MaxMessageLength: nat := 4096

  /** The line feed `'\n'`. */
  const LF: CodeUnit := 10

  // ---------------------------------------------------------------------------
  // Trimming

  /** The code units `String.prototype.trim` removes: the ECMAScript
      WhiteSpace and LineTerminator code points, all of them in the Basic
      Multilingual Plane. */
  predicate IsWhitespace(c: CodeUnit) {
    || c == 9 || c == 10 || c == 11 || c == 12 || c == 13 || c == 32
    || c == 0xA0 || c == 0x1680 || (0x2000 <= c <= 0x200A)
    || c == 0x2028 || c == 0x2029 || c == 0x202F || c == 0x205F || c == 0x3000 || c == 0xFEFF
  }

  predicate AllWhitespace(s: Text) {
    forall i :: 0 <= i < |s| ==> IsWhitespace(s[i])
  }

  function TrimStart(s: Text): Text
    decreases |s|
  {
    if s != [] && IsWhitespace(s[0]) then TrimStart(s[1..]) else s
  }

  function TrimEnd(s: Text): Text
    decreases |s|
  {
    if s != [] && IsWhitespace(s[|s| - 1]) then TrimEnd(s[..|s| - 1]) else s
  }

  /** `s.trim()`. */
  function Trim(s: Text): Text {
    TrimEnd(TrimStart(s))
  }

  /** `TrimStart` drops a run of whitespace from the front and stops at the
      first other code unit. */
  lemma {:induction false} TrimStartShape(s: Text)
    ensures var t := TrimStart(s);
      && |t| <= |s|
      && t == s[|s| - |t|..]
      && AllWhitespace(s[..|s| - |t|])
      && (t != [] ==> !IsWhitespace(t[0]))
    decreases |s|
  {
    if s != [] && IsWhitespace(s[0]) {
      TrimStartShape(s[1..]);
      var t := TrimStart(s);
      var k := |s| - |t|;
      DropDrop(s, 1, k - 1);
      assert s[..k] == [s[0]] + s[1..][..k - 1];
    }
  }

  /** `TrimEnd` drops a run of whitespace from the back and stops at the last
      other code unit. */
  lemma {:induction false} TrimEndShape(s: Text)
    ensures var t := TrimEnd(s);
      && |t| <= |s|
      && t == s[..|t|]
      && AllWhitespace(s[|t|..])
      && (t != [] ==> !IsWhitespace(t[|t| - 1]))
    decreases |s|
  {
    if s != [] && IsWhitespace(s[|s| - 1]) {
      var init := s[..|s| - 1];
      TrimEndShape(init);
      var t := TrimEnd(s);
      TakeDrop(s, |t|, |s| - 1);
      assert s[|t|..] == init[|t|..] + [s[|s| - 1]];
    }
  }

  /** `s.trim()` is the part of `s` between a whitespace prefix and a
      whitespace suffix, and begins and ends with other code units. */
  lemma TrimShape(s: Text)
    ensures var t, i := Trim(s), |s| - |TrimStart(s)|;
      && 0 <= i <= i + |t| <= |s|
      && t == s[i..i + |t|] && AllWhitespace(s[..i]) && AllWhitespace(s[i + |t|..])
      && (t != [] ==> !IsWhitespace(t[0]) && !IsWhitespace(t[|t| - 1]))
  {
    var u := TrimStart(s);
    var t := Trim(s);
    TrimStartShape(s);
    TrimEndShape(u);
    var i := |s| - |u|;
    DropTake(s, i, |t|);
    DropDrop(s, i, |t|);
    assert t == s[i..i + |t|] && AllWhitespace(s[..i]) && AllWhitespace(s[i + |t|..]);
  }

  /** The trimmed text is empty exactly when the text is all whitespace. */
  lemma TrimEmpty(s: Text)
    ensures Trim(s) == [] <==> AllWhitespace(s)
  {
    TrimStartShape(s);
    var u := TrimStart(s);
    TrimEndShape(u);
    if u != [] {
      TrimEndKeepsFirst(u);
      assert !IsWhitespace(s[|s| - |u|]);
    } else {
      assert s[..|s| - |u|] == s;
    }
  }

  lemma {:induction false} TrimEndKeepsFirst(u: Text)
    requires u != [] && !IsWhitespace(u[0])
    ensures TrimEnd(u) != []
    decreases |u|
  {
    if IsWhitespace(u[|u| - 1]) {
      TrimEndKeepsFirst(u[..|u| - 1]);
    }
  }

  /** Whitespace in front does not survive `TrimStart`. */
  lemma {:induction false} TrimStartAfterWhitespace(w: Text, t: Text)
    requires AllWhitespace(w)
    ensures TrimStart(w + t) == TrimStart(t)
    decreases |w|
  {
    if w != [] {
      DropAppend(w, t);
      TrimStartAfterWhitespace(w[1..], t);
    } else {
      assert w + t == t;
    }
  }

  /** The code units of `s` that are not whitespace, in order. */
  function Visible(s: Text): Text
    decreases |s|
  {
    if s == [] then [] else (if IsWhitespace(s[0]) then [] else [s[0]]) + Visible(s[1..])
  }

  lemma {:induction false} VisibleAppend(a: Text, b: Text)
    ensures Visible(a + b) == Visible(a) + Visible(b)
    decreases |a|
  {
    if a == [] {
      assert a + b == b;
    } else {
      DropAppend(a, b);
      VisibleAppend(a[1..], b);
      ConcatAssoc(if IsWhitespace(a[0]) then [] else [a[0]], Visible(a[1..]), Visible(b));
    }
  }

  lemma {:induction false} VisibleOfWhitespace(s: Text)
    requires AllWhitespace(s)
    ensures Visible(s) == []
    decreases |s|
  {
    if s != [] {
      VisibleOfWhitespace(s[1..]);
    }
  }

  /** Trimming removes no visible code unit. */
  lemma VisibleTrim(s: Text)
    ensures Visible(Trim(s)) == Visible(s)
  {
    var u := TrimStart(s);
    var t := Trim(s);
    TrimStartShape(s);
    TrimEndShape(u);
    var k := |s| - |u|;
    assert s == s[..k] + u;
    VisibleAppend(s[..k], u);
    VisibleOfWhitespace(s[..k]);
    assert u == t + u[|t|..];
    VisibleAppend(t, u[|t|..]);
    VisibleOfWhitespace(u[|t|..]);
  }

  // ---------------------------------------------------------------------------
  // Lines

  /** `s.split('\n')`: the pieces between line feeds, at least one (the empty
      text gives one empty line, a trailing line feed an empty last line). */
  function SplitLines(s: Text): (lines: seq<Text>)
    ensures |lines| >= 1
    decreases |s|
  {
    if s == [] then [[]]
    else
      var lines := SplitLines(s[..|s| - 1]);
      if s[|s| - 1] == LF then lines + [[]] else ExtendLast(lines, [s[|s| - 1]])
  }

  /** The lines with `b` added to the end of the last one. */
  function ExtendLast(lines: seq<Text>, b: Text): (r: seq<Text>)
    requires |lines| >= 1
    ensures |r| == |lines|
  {
    lines[..|lines| - 1] + [lines[|lines| - 1] + b]
  }

  lemma SplitLinesSnoc(s: Text, c: CodeUnit)
    ensures SplitLines(s + [c]) == if c == LF then SplitLines(s) + [[]] else ExtendLast(SplitLines(s), [c])
  {
    assert (s + [c])[..|s|] == s;
  }

  lemma ExtendLastTwice(lines: seq<Text>, b: Text, c: CodeUnit)
    requires |lines| >= 1
    ensures ExtendLast(ExtendLast(lines, b), [c]) == ExtendLast(lines, b + [c])
  {
    var r := ExtendLast(lines, b);
    assert r[..|r| - 1] == lines[..|lines| - 1];
    assert r[|r| - 1] == lines[|lines| - 1] + b;
    ConcatAssoc(lines[|lines| - 1], b, [c]);
  }

  /** `lines.join('\n')`. */
  function Join(lines: seq<Text>): Text
    requires |lines| >= 1
    decreases |lines|
  {
    if |lines| == 1 then lines[0] else Join(lines[..|lines| - 1]) + [LF] + lines[|lines| - 1]
  }

  predicate NoLineFeed(line: Text) {
    forall i :: 0 <= i < |line| ==> line[i] != LF
  }

  predicate AllLines(lines: seq<Text>) {
    forall j :: 0 <= j < |lines| ==> NoLineFeed(lines[j])
  }

  /** Splitting gives pieces without line feeds. */
  lemma {:induction false} SplitLinesNoLineFeed(s: Text)
    ensures AllLines(SplitLines(s))
    decreases |s|
  {
    if s != [] {
      var init := s[..|s| - 1];
      SplitLinesNoLineFeed(init);
      var lines := SplitLines(init);
      if s[|s| - 1] != LF {
        var last := lines[|lines| - 1];
        assert NoLineFeed(last + [s[|s| - 1]]);
        var lines' := ExtendLast(lines, [s[|s| - 1]]);
        forall j | 0 <= j < |lines'| ensures NoLineFeed(lines'[j]) {
          if j < |lines| - 1 {
            assert lines'[j] == lines[j];
          }
        }
      }
    }
  }

  /** The pieces join back to the text. */
  lemma {:induction false} SplitJoin(s: Text)
    ensures Join(SplitLines(s)) == s
    decreases |s|
  {
    if s != [] {
      var init := s[..|s| - 1];
      var c := s[|s| - 1];
      SplitJoin(init);
      var lines := SplitLines(init);
      assert s == init + [c];
      if c == LF {
        var lines' := lines + [[]];
        assert lines'[..|lines'| - 1] == lines;
        assert Join(lines') == Join(lines) + [LF] + [];
      } else {
        JoinExtendLast(lines, c);
      }
    }
  }

  /** Extending the last line extends the joined text. */
  lemma JoinExtendLast(lines: seq<Text>, c: CodeUnit)
    requires |lines| >= 1
    ensures Join(ExtendLast(lines, [c])) == Join(lines) + [c]
  {
    var last := lines[|lines| - 1];
    var front := lines[..|lines| - 1];
    var lines' := ExtendLast(lines, [c]);
    if |lines| > 1 {
      assert lines'[..|lines'| - 1] == front;
      assert lines[..|lines| - 1] == front;
      ConcatAssoc(Join(front) + [LF], last, [c]);
    }
  }

  /** Appending a piece without line feeds extends the last line. */
  lemma {:induction false} SplitLinesAppend(a: Text, b: Text)
    requires NoLineFeed(b)
    ensures SplitLines(a + b) == ExtendLast(SplitLines(a), b)
    decreases |b|
  {
    if b == [] {
      assert a + b == a;
      ExtendLastEmpty(SplitLines(a));
    } else {
      var b' := b[..|b| - 1];
      assert NoLineFeed(b') by {
        forall i | 0 <= i < |b'| ensures b'[i] != LF {
          assert b'[i] == b[i];
        }
      }
      SplitLinesAppend(a, b');
      SplitLinesAppendStep(a, b);
    }
  }

  lemma ExtendLastEmpty(lines: seq<Text>)
    requires |lines| >= 1
    ensures ExtendLast(lines, []) == lines
  {
    assert lines[|lines| - 1] + [] == lines[|lines| - 1];
    assert lines[..|lines| - 1] + [lines[|lines| - 1]] == lines;
  }

  lemma AppendInit(a: Text, b: Text)
    requires b != []
    ensures a + b == (a + b[..|b| - 1]) + [b[|b| - 1]]
  {
    assert b == b[..|b| - 1] + [b[|b| - 1]];
  }

  /** One more unit that is not a line feed extends the last line once more. */
  lemma SplitLinesAppendStep(a: Text, b: Text)
    requires b != [] && b[|b| - 1] != LF
    requires SplitLines(a + b[..|b| - 1]) == ExtendLast(SplitLines(a), b[..|b| - 1])
    ensures SplitLines(a + b) == ExtendLast(SplitLines(a), b)
  {
    var b', c := b[..|b| - 1], b[|b| - 1];
    AppendInit(a, b);
    AppendInit([], b);
    assert b' + [c] == b by { assert [] + b == b && [] + b' == b'; }
    calc {
      SplitLines(a + b);
      SplitLines((a + b') + [c]);
      { SplitLinesSnoc(a + b', c); }
      ExtendLast(SplitLines(a + b'), [c]);
      ExtendLast(ExtendLast(SplitLines(a), b'), [c]);
      { ExtendLastTwice(SplitLines(a), b', c); }
      ExtendLast(SplitLines(a), b' + [c]);
    }
  }

  /** Joining pieces without line feeds and splitting again gives them back:
      with `SplitJoin`, `SplitLines` and `Join` are inverse to each other. */
  lemma {:induction false} JoinSplit(lines: seq<Text>)
    requires |lines| >= 1 && AllLines(lines)
    ensures SplitLines(Join(lines)) == lines
    decreases |lines|
  {
    if |lines| == 1 {
      SplitLinesAppend([], lines[0]);
      assert [] + lines[0] == lines[0];
    } else {
      var front := lines[..|lines| - 1];
      var last := lines[|lines| - 1];
      JoinSplit(front);
      SplitLinesSnoc(Join(front), LF);
      SplitLinesAppend(Join(front) + [LF], last);
      assert (front + [[]])[..|front|] == front;
      assert [] + last == last;
      assert lines == front + [last];
    }
  }

  // ---------------------------------------------------------------------------
  // Chunks

  function Flatten(ss: seq<Text>): Text
    decreases |ss|
  {
    if ss == [] then [] else ss[0] + Flatten(ss[1..])
  }

  lemma {:induction false} FlattenAppend(a: seq<Text>, b: seq<Text>)
    ensures Flatten(a + b) == Flatten(a) + Flatten(b)
    decreases |a|
  {
    if a == [] {
      assert a + b == b;
    } else {
      DropAppend(a, b);
      FlattenAppend(a[1..], b);
      ConcatAssoc(a[0], Flatten(a[1..]), Flatten(b));
    }
  }

  /** What `chunkString(s, k)` returns: consecutive slices of `k` code units,
      the last one possibly shorter. */
  function Chunks(s: Text, k: nat): seq<Text>
    requires k > 0
    decreases |s|
  {
    if s == [] then []
    else if |s| <= k then [s]
    else [s[..k]] + Chunks(s[k..], k)
  }

  /** There are `ceil(|s| / k)` chunks: the least number whose multiple of
      `k` reaches `|s|`. */
  lemma {:induction false} ChunksCount(s: Text, k: nat)
    requires k > 0
    ensures |Chunks(s, k)| == 0 <==> s == []
    ensures (|Chunks(s, k)| - 1) * k < |s| <= |Chunks(s, k)| * k
    decreases |s|
  {
    if |s| > k {
      ChunksCount(s[k..], k);
      var c := |Chunks(s[k..], k)|;
      assert |Chunks(s, k)| == c + 1;
      MulSucc(c, k);
      MulSucc(c - 1, k);
    }
  }

  lemma MulSucc(a: int, k: int)
    ensures (a + 1) * k == a * k + k
  {
  }

  /** The chunks concatenate to the text. */
  lemma {:induction false} ChunksFlatten(s: Text, k: nat)
    requires k > 0
    ensures Flatten(Chunks(s, k)) == s
    decreases |s|
  {
    var r := Chunks(s, k);
    if s != [] && |s| <= k {
      assert r[1..] == [];
      assert Flatten(r) == s + [];
    } else if |s| > k {
      ChunksFlatten(s[k..], k);
      assert r[1..] == Chunks(s[k..], k);
      assert s == s[..k] + s[k..];
    }
  }

  /** The chunks are non-empty and all but the last have exactly `k` code
      units. */
  lemma {:induction false} ChunksLengths(s: Text, k: nat)
    requires k > 0
    ensures forall j :: 0 <= j < |Chunks(s, k)| ==> 1 <= |Chunks(s, k)[j]| <= k
    ensures forall j :: 0 <= j < |Chunks(s, k)| - 1 ==> |Chunks(s, k)[j]| == k
    decreases |s|
  {
    if |s| > k {
      var r := Chunks(s, k);
      var rest := Chunks(s[k..], k);
      ChunksLengths(s[k..], k);
      assert r == [s[..k]] + rest;
      forall j | 0 <= j < |r| ensures 1 <= |r[j]| <= k && (j < |r| - 1 ==> |r[j]| == k) {
        if j > 0 {
          assert r[j] == rest[j - 1];
        }
      }
    }
  }

  /** The end of the slice `s.slice(i, i + k)`: the end index, clamped to the
      length as `slice` does. */
  function SliceEnd(i: nat, k: nat, n: nat): nat {
    if i + k <= n then i + k else n
  }

  /** The chunks from a position inside the text: the slice there, then the
      chunks from the next position. */
  lemma ChunksFrom(s: Text, i: nat, k: nat)
    requires k > 0 && i < |s|
    ensures Chunks(s[i..], k) == [s[i..SliceEnd(i, k, |s|)]] + Chunks(s[SliceEnd(i, k, |s|)..], k)
  {
    var j := SliceEnd(i, k, |s|);
    if |s[i..]| <= k {
      assert s[i..] == s[i..j];
      assert s[j..] == [];
    } else {
      DropTake(s, i, k);
      DropDrop(s, i, k);
    }
  }

  /** `chunkString`: a loop stepping `i` by `chunkSize` that pushes
      `str.slice(i, i + chunkSize)`. A `chunkSize` of 0 would never end the
      loop; the only caller passes 4096. */
  method ChunkString(str: Text, chunkSize: nat) returns (chunks: seq<Text>)
    requires chunkSize > 0
    ensures chunks == Chunks(str, chunkSize)
  {
    chunks := [];
    var i: nat := 0;
    while i < |str|
      invariant i <= |str| ==> chunks + Chunks(str[i..], chunkSize) == Chunks(str, chunkSize)
      invariant i > |str| ==> chunks == Chunks(str, chunkSize)
      decreases |str| - i
    {
      var end := SliceEnd(i, chunkSize, |str|);
      ChunksFrom(str, i, chunkSize);
      ConcatAssoc(chunks, [str[i..end]], Chunks(str[end..], chunkSize));
      chunks := chunks + [str[i..end]];
      if end == |str| {
        assert str[end..] == [];
        assert chunks + [] == chunks;
      }
      i := i + chunkSize;
    }
    if i == |str| {
      assert str[i..] == [];
      assert chunks + [] == chunks;
    }
  }

  // ---------------------------------------------------------------------------
  // The split of a long text

  /** The state of the loop of `sendLongMessage`: the messages sent so far
      and `currentMessage`. */
  datatype Splitter = Splitter(emitted: seq<Text>, buffer: Text)

  /** `currentMessage += (currentMessage ? '\n' : '') + line`. */
  function Append(buffer: Text, line: Text): Text {
    buffer + (if buffer != [] then [LF] else []) + line
  }

  /** Send the trimmed buffer and empty it, unless it is blank; a blank
      buffer is kept as it is. */
  function Flush(st: Splitter): Splitter {
    if Trim(st.buffer) != [] then Splitter(st.emitted + [Trim(st.buffer)], []) else st
  }

  /** One iteration of the loop over the lines. */
  function Step(st: Splitter, line: Text): Splitter {
    if |st.buffer| + |line| + 1 > MaxMessageLength then
      var flushed := Flush(st);
      if |line| > MaxMessageLength then Splitter(flushed.emitted + Chunks(line, MaxMessageLength), flushed.buffer)
      else Splitter(flushed.emitted, Append(flushed.buffer, line))
    else Splitter(st.emitted, Append(st.buffer, line))
  }

  /** The loop over `lines`, from an empty state. */
  function Fold(lines: seq<Text>): Splitter
    decreases |lines|
  {
    if lines == [] then Splitter([], []) else Step(Fold(lines[..|lines| - 1]), lines[|lines| - 1])
  }

  /** The messages `sendLongMessage` sends when every request succeeds: the
      loop, then the final flush. */
  function LongMessages(text: Text): seq<Text> {
    Flush(Fold(SplitLines(text))).emitted
  }

  /** The messages `sendMessage` sends when every request succeeds. */
  function Messages(text: Text): seq<Text> {
    if |text| > MaxMessageLength then LongMessages(text) else [text]
  }

  /** A message Telegram takes: from 1 to 4096 code units. */
  predicate Sendable(m: Text) {
    1 <= |m| <= MaxMessageLength
  }

  predicate AllSendable(ms: seq<Text>) {
    forall j :: 0 <= j < |ms| ==> Sendable(ms[j])
  }

  /** What the loop keeps: every message sent is sendable, and the buffer is
      at most 4096 code units once its leading whitespace is dropped. The
      buffer itself can grow past 4096: a blank buffer is not flushed, and a
      line is then appended to it. */
  predicate Bounded(st: Splitter) {
    AllSendable(st.emitted) && |TrimStart(st.buffer)| <= MaxMessageLength
  }

  lemma AllSendableAppend(a: seq<Text>, b: seq<Text>)
    requires AllSendable(a) && AllSendable(b)
    ensures AllSendable(a + b)
  {
    forall j | 0 <= j < |a + b| ensures Sendable((a + b)[j]) {
      if j >= |a| {
        assert (a + b)[j] == b[j - |a|];
      }
    }
  }

  /** After a flush the buffer is blank. */
  lemma FlushLeavesBlank(st: Splitter)
    ensures AllWhitespace(Flush(st).buffer)
  {
    TrimEmpty(st.buffer);
  }

  lemma FlushBounded(st: Splitter)
    requires Bounded(st)
    ensures Bounded(Flush(st)) && AllWhitespace(Flush(st).buffer)
  {
    FlushLeavesBlank(st);
    if Trim(st.buffer) != [] {
      TrimShape(st.buffer);
      AllSendableAppend(st.emitted, [Trim(st.buffer)]);
    }
  }

  lemma ChunksSendable(line: Text)
    ensures AllSendable(Chunks(line, MaxMessageLength))
  {
    ChunksLengths(line, MaxMessageLength);
  }

  /** Each iteration keeps `Bounded`. */
  lemma StepBounded(st: Splitter, line: Text)
    requires Bounded(st)
    ensures Bounded(Step(st, line))
  {
    var next := Step(st, line);
    if |st.buffer| + |line| + 1 > MaxMessageLength {
      var flushed := Flush(st);
      FlushBounded(st);
      TrimEmpty(st.buffer);
      if |line| > MaxMessageLength {
        ChunksSendable(line);
        AllSendableAppend(flushed.emitted, Chunks(line, MaxMessageLength));
      } else {
        var sep: Text := if flushed.buffer != [] then [LF] else [];
        assert AllWhitespace(flushed.buffer + sep);
        assert next.buffer == (flushed.buffer + sep) + line;
        TrimStartAfterWhitespace(flushed.buffer + sep, line);
        TrimStartShape(line);
      }
    } else {
      TrimStartShape(next.buffer);
    }
  }

  lemma {:induction false} FoldBounded(lines: seq<Text>)
    ensures Bounded(Fold(lines))
    decreases |lines|
  {
    if lines != [] {
      FoldBounded(lines[..|lines| - 1]);
      StepBounded(Fold(lines[..|lines| - 1]), lines[|lines| - 1]);
    }
  }

  /** No message is longer than 4096 code units, and in the long path none is
      empty: a blank buffer is never sent. */
  lemma MessagesBounded(text: Text)
    ensures forall j :: 0 <= j < |Messages(text)| ==> |Messages(text)[j]| <= MaxMessageLength
    ensures |text| > MaxMessageLength ==> AllSendable(Messages(text))
  {
    if |text| > MaxMessageLength {
      FoldBounded(SplitLines(text));
      FlushBounded(Fold(SplitLines(text)));
    }
  }

  /** A line longer than 4096 code units is never buffered: a non-blank
      pending buffer is sent first, then the line's chunks in order. */
  lemma LongLineBypassesBuffer(st: Splitter, line: Text)
    requires |line| > MaxMessageLength
    ensures var pending := if Trim(st.buffer) != [] then [Trim(st.buffer)] else [];
      Step(st, line) == Splitter(st.emitted + pending + Chunks(line, MaxMessageLength),
                                 if pending != [] then [] else st.buffer)
  {
  }

  /** A long text without line feeds is sent as its chunks: at least two
      messages, of 4096 code units each but the last. */
  lemma SingleLongLine(text: Text)
    requires |text| > MaxMessageLength && NoLineFeed(text)
    ensures Messages(text) == Chunks(text, MaxMessageLength)
    ensures |Messages(text)| >= 2
  {
    var empty := Splitter([], []);
    SplitLinesAppend([], text);
    assert [] + text == text;
    assert SplitLines(text) == ExtendLast([[]], text) == [text];
    assert [text][..0] == [];
    assert Fold([text]) == Step(empty, text);
    assert Trim([]) == [];
    assert Flush(empty) == empty;
    assert Step(empty, text) == Splitter(Chunks(text, MaxMessageLength), []);
    ChunksCount(text, MaxMessageLength);
  }

  // The visible content of the messages

  /** The visible code units of the lines, line after line. */
  function VisibleLines(lines: seq<Text>): Text
    decreases |lines|
  {
    if lines == [] then [] else VisibleLines(lines[..|lines| - 1]) + Visible(lines[|lines| - 1])
  }

  /** The visible code units of what was sent and of the buffer. */
  function Content(st: Splitter): Text {
    Visible(Flatten(st.emitted)) + Visible(st.buffer)
  }

  lemma {:induction false} VisibleJoin(lines: seq<Text>)
    requires |lines| >= 1
    ensures Visible(Join(lines)) == VisibleLines(lines)
    decreases |lines|
  {
    var front := lines[..|lines| - 1];
    if |lines| == 1 {
      assert front == [];
      assert VisibleLines(lines) == [] + Visible(lines[0]);
    } else {
      VisibleJoin(front);
      VisibleAppend(Join(front) + [LF], lines[|lines| - 1]);
      VisibleAppend(Join(front), [LF]);
      assert Visible([LF]) == [];
    }
  }

  lemma VisibleAppendLine(buffer: Text, line: Text)
    ensures Visible(Append(buffer, line)) == Visible(buffer) + Visible(line)
  {
    var sep: Text := if buffer != [] then [LF] else [];
    VisibleAppend(buffer + sep, line);
    VisibleAppend(buffer, sep);
    assert Visible(sep) == [];
  }

  lemma FlushContent(st: Splitter)
    ensures Content(Flush(st)) == Content(st)
  {
    if Trim(st.buffer) != [] {
      var t := Trim(st.buffer);
      FlattenAppend(st.emitted, [t]);
      assert Flatten([t]) == t + Flatten([]) == t;
      VisibleAppend(Flatten(st.emitted), t);
      VisibleTrim(st.buffer);
      assert Content(Flush(st)) == Visible(Flatten(st.emitted) + t) + [];
    }
  }

  /** Each iteration adds the line's visible code units after the others. */
  lemma StepContent(st: Splitter, line: Text)
    ensures Content(Step(st, line)) == Content(st) + Visible(line)
  {
    if |st.buffer| + |line| + 1 > MaxMessageLength {
      FlushContent(st);
      if |line| > MaxMessageLength {
        FlushLeavesBlank(st);
        ChunkedContent(Flush(st), line);
      } else {
        BufferedContent(Flush(st), line);
      }
    } else {
      BufferedContent(st, line);
    }
  }

  lemma BufferedContent(st: Splitter, line: Text)
    ensures Content(Splitter(st.emitted, Append(st.buffer, line))) == Content(st) + Visible(line)
  {
    VisibleAppendLine(st.buffer, line);
    ConcatAssoc(Visible(Flatten(st.emitted)), Visible(st.buffer), Visible(line));
  }

  /** Sending the chunks of a line after a flush adds the line's visible
      code units; the blank buffer left by the flush adds none. */
  lemma ChunkedContent(st: Splitter, line: Text)
    requires AllWhitespace(st.buffer)
    ensures Content(Splitter(st.emitted + Chunks(line, MaxMessageLength), st.buffer)) == Content(st) + Visible(line)
  {
    var sent := Flatten(st.emitted);
    var chunks := Chunks(line, MaxMessageLength);
    VisibleOfWhitespace(st.buffer);
    FlattenAppend(st.emitted, chunks);
    ChunksFlatten(line, MaxMessageLength);
    assert Flatten(st.emitted + chunks) == sent + line;
    VisibleAppend(sent, line);
  }

  lemma {:induction false} FoldContent(lines: seq<Text>)
    ensures Content(Fold(lines)) == VisibleLines(lines)
    decreases |lines|
  {
    if lines == [] {
      assert Content(Fold(lines)) == Visible([]) + Visible([]);
    } else {
      FoldContent(lines[..|lines| - 1]);
      StepContent(Fold(lines[..|lines| - 1]), lines[|lines| - 1]);
    }
  }

  /** Nothing visible is lost, duplicated or reordered: the messages of the
      long path, put together, have the visible code units of the text in
      their order. Only whitespace is dropped (by trimming) or added (the
      line feeds between buffered lines). */
  lemma LongMessagesContent(text: Text)
    ensures Visible(Flatten(LongMessages(text))) == Visible(text)
  {
    var lines := SplitLines(text);
    var st := Flush(Fold(lines));
    FoldContent(lines);
    FlushContent(Fold(lines));
    FoldBounded(lines);
    FlushBounded(Fold(lines));
    VisibleOfWhitespace(st.buffer);
    assert Content(st) == Visible(Flatten(st.emitted)) + [];
    VisibleJoin(lines);
    SplitJoin(text);
  }

  // The order of sending

  lemma StepExtends(st: Splitter, line: Text)
    ensures st.emitted <= Flush(st).emitted
    ensures st.emitted <= Step(st, line).emitted
  {
    var flushed := Flush(st);
    assert st.emitted <= flushed.emitted;
    assert flushed.emitted <= flushed.emitted + Chunks(line, MaxMessageLength);
  }

  /** The messages sent after a prefix of the lines come first among those
      sent after all of them. */
  lemma {:induction false} FoldPrefix(lines: seq<Text>, i: nat)
    requires i <= |lines|
    ensures Fold(lines[..i]).emitted <= Fold(lines).emitted
    decreases |lines|
  {
    if i == |lines| {
      assert lines[..i] == lines;
    } else {
      var front := lines[..|lines| - 1];
      FoldPrefix(front, i);
      assert front[..i] == lines[..i];
      StepExtends(Fold(front), lines[|lines| - 1]);
    }
  }

  // ---------------------------------------------------------------------------
  // Sending

  /** What one `sendMessage` request gives: a response with its status and
      `JSON.stringify` of the decoded error body (`{}` when the body is not
      JSON), or a rejected `fetch` with the message of its error. */
  datatype Reply =
    | Response(status: nat, errorData: string)
    | Failed(reason: string)

  /** The error a reply that is not OK raises: a rejected `fetch` passes its
      own error on; a non-OK response raises "Telegram API: status - data". */
  function TelegramError(reply: Reply): (e: string)
    ensures reply.Failed? ==> e == reply.reason
    ensures reply.Response? ==> "Telegram API: " <= e
  {
    match reply
    case Failed(reason) => reason
    case Response(status, errorData) => "Telegram API: " + NatToString(status) + " - " + errorData
  }

  /** Request number `j` (counting from 0) gets a response with an OK status. */
  predicate Accepted(respond: nat -> Reply, j: nat) {
    respond(j).Response? && IsOk(respond(j).status)
  }

  /** `sent` are the requests made for the messages `plan`, ending with
      `error`: the messages are sent in order, each after the previous one
      was accepted; the first rejection raises its error and nothing is sent
      after it; with no rejection every message is sent. */
  predicate Delivered(plan: seq<Text>, respond: nat -> Reply, sent: seq<Text>, error: Option<string>) {
    && sent <= plan
    && (forall j :: 0 <= j < |sent| - 1 ==> Accepted(respond, j))
    && (error.None? <==> sent == plan && forall j :: 0 <= j < |plan| ==> Accepted(respond, j))
    && (error.Some? ==> sent != [] && !Accepted(respond, |sent| - 1) && error.value == TelegramError(respond(|sent| - 1)))
  }

  /** The plan and the replies determine the requests and the outcome. */
  lemma DeliveredUnique(plan: seq<Text>, respond: nat -> Reply,
                        sent1: seq<Text>, error1: Option<string>, sent2: seq<Text>, error2: Option<string>)
    requires Delivered(plan, respond, sent1, error1) && Delivered(plan, respond, sent2, error2)
    ensures sent1 == sent2 && error1 == error2
  {
    if error1.Some? && error2.Some? {
      assert |sent1| == |sent2|;
      assert sent1 == plan[..|sent1|] && sent2 == plan[..|sent2|];
    }
  }

  /** `sendSingleMessage`: request number `|sent|` posts `text`; a non-OK
      reply raises `TelegramError`. */
  method SendSingleMessage(text: Text, respond: nat -> Reply, sent: seq<Text>) returns (sent': seq<Text>, error: Option<string>)
    ensures sent' == sent + [text]
    ensures error.None? <==> Accepted(respond, |sent|)
    ensures error.Some? ==> error.value == TelegramError(respond(|sent|))
  {
    sent' := sent + [text];
    var reply := respond(|sent|);
    if reply.Failed? || !IsOk(reply.status) {
      error := Some(TelegramError(reply));
    } else {
      error := None;
    }
  }

  /** All requests so far were accepted. */
  predicate AllAccepted(respond: nat -> Reply, n: nat) {
    forall j :: 0 <= j < n ==> Accepted(respond, j)
  }

  /** One `await sendSingleMessage(...)` inside `sendLongMessage`, which sends
      the messages `plan`: with the message next in the plan, it either
      succeeds or ends the whole delivery with its error. */
  method Send(message: Text, respond: nat -> Reply, sent: seq<Text>, ghost plan: seq<Text>)
    returns (sent': seq<Text>, error: Option<string>)
    requires sent + [message] <= plan && AllAccepted(respond, |sent|)
    ensures error.None? ==> sent' == sent + [message] && AllAccepted(respond, |sent'|)
    ensures error.Some? ==> Delivered(plan, respond, sent', error)
  {
    sent', error := SendSingleMessage(message, respond, sent);
    if error.Some? {
      assert |sent| < |plan| && !Accepted(respond, |sent|);
      assert sent' != [] && |sent'| - 1 == |sent|;
    }
  }

  /** `for (const chunk of chunks) await sendSingleMessage(...)`. */
  method SendAll(messages: seq<Text>, respond: nat -> Reply, sent: seq<Text>, ghost plan: seq<Text>)
    returns (sent': seq<Text>, error: Option<string>)
    requires sent + messages <= plan && AllAccepted(respond, |sent|)
    ensures error.None? ==> sent' == sent + messages && AllAccepted(respond, |sent'|)
    ensures error.Some? ==> Delivered(plan, respond, sent', error)
  {
    sent', error := sent, None;
    for c := 0 to |messages|
      invariant sent' == sent + messages[..c] && AllAccepted(respond, |sent'|)
      invariant error.None?
    {
      assert sent + messages[..c + 1] == sent' + [messages[c]];
      assert sent + messages[..c + 1] <= sent + messages;
      sent', error := Send(messages[c], respond, sent', plan);
      if error.Some? {
        return;
      }
    }
    assert messages[..|messages|] == messages;
  }

  /** The body of the loop of `sendLongMessage` for one line. */
  method SendLine(line: Text, respond: nat -> Reply, sent: seq<Text>, currentMessage: Text, ghost plan: seq<Text>)
    returns (sent': seq<Text>, currentMessage': Text, error: Option<string>)
    requires Step(Splitter(sent, currentMessage), line).emitted <= plan && AllAccepted(respond, |sent|)
    ensures error.None? ==> Splitter(sent', currentMessage') == Step(Splitter(sent, currentMessage), line) && AllAccepted(respond, |sent'|)
    ensures error.Some? ==> Delivered(plan, respond, sent', error)
  {
    ghost var st := Splitter(sent, currentMessage);
    sent', currentMessage', error := sent, currentMessage, None;
    if |currentMessage'| + |line| + 1 > MaxMessageLength {
      if Trim(currentMessage') != [] {
        assert sent' + [Trim(currentMessage')] == Flush(st).emitted;
        StepExtends(Flush(st), line);
        sent', error := Send(Trim(currentMessage'), respond, sent', plan);
        if error.Some? {
          return;
        }
        currentMessage' := [];
      }
      if |line| > MaxMessageLength {
        var chunks := ChunkString(line, MaxMessageLength);
        sent', error := SendAll(chunks, respond, sent', plan);
        return;
      }
    }
    currentMessage' := currentMessage' + (if currentMessage' != [] then [LF] else []) + line;
  }

  /** `sendLongMessage`. */
  method SendLongMessage(text: Text, respond: nat -> Reply) returns (sent: seq<Text>, error: Option<string>)
    ensures Delivered(LongMessages(text), respond, sent, error)
  {
    ghost var plan := LongMessages(text);
    var lines := SplitLines(text);
    var currentMessage: Text := [];
    sent, error := [], None;
    for i := 0 to |lines|
      invariant Fold(lines[..i]) == Splitter(sent, currentMessage) && AllAccepted(respond, |sent|)
      invariant error.None?
    {
      assert lines[..i + 1][..i] == lines[..i];
      FoldPrefix(lines, i + 1);
      StepExtends(Fold(lines), []);
      sent, currentMessage, error := SendLine(lines[i], respond, sent, currentMessage, plan);
      if error.Some? {
        return;
      }
    }
    assert lines[..|lines|] == lines;
    if Trim(currentMessage) != [] {
      sent, error := Send(Trim(currentMessage), respond, sent, plan);
    }
  }

  /** `sendMessage`: a text of at most 4096 code units is one request with the
      text unchanged; a longer one goes through `sendLongMessage`. */
  method SendMessage(text: Text, respond: nat -> Reply) returns (sent: seq<Text>, error: Option<string>)
    ensures Delivered(Messages(text), respond, sent, error)
    ensures |text| <= MaxMessageLength ==> sent == [text] && (error.None? <==> Accepted(respond, 0))
  {
    if |text| > MaxMessageLength {
      sent, error := SendLongMessage(text, respond);
      return;
    }
    sent, error := SendSingleMessage(text, respond, []);
  }
}
