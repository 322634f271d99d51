/** The line log: whole lines in a byte ring, and an account of every one of them. */
module LineLog {
  import opened RingBuf
  import opened Subsequences

  const NEWLINE: bv8 := 10
  const LINE_MAX := 128

  datatype OnFull = OverwriteOld | DropNew

  /** A line: no newline but its last byte. */
  predicate IsLine(s: seq<bv8>) {
    0 < |s| && s[|s| - 1] == NEWLINE && NEWLINE !in s[..|s| - 1]
  }

  predicate AllLines(lines: seq<seq<bv8>>) {
    forall i :: 0 <= i < |lines| ==> IsLine(lines[i])
  }

  function Text(lines: seq<seq<bv8>>): seq<bv8> {
    if lines == [] then [] else lines[0] + Text(lines[1..])
  }

  /** What the line buffer keeps of a formatted message. */
  function Kept(text: seq<bv8>): seq<bv8> {
    text[..Min(|text|, LINE_MAX - 1)]
  }

  /** What a formatted message becomes: cut to the line buffer, and ended by a newline. */
  function LineOf(text: seq<bv8>): (line: seq<bv8>)
    ensures 0 < |line| <= LINE_MAX && Closed(line)
  {
    Kept(text) + [NEWLINE]
  }

  /** No newline in what the line buffer keeps of a message. */
  predicate OneLine(text: seq<bv8>) {
    NEWLINE !in Kept(text)
  }

  // ---------------------------------------------------------------- bytes as lines

  /** Bytes that end where a line ends. */
  predicate Closed(s: seq<bv8>) {
    s == [] || s[|s| - 1] == NEWLINE
  }

  function FirstEnd(s: seq<bv8>): (n: nat)
    requires s != [] && Closed(s)
    ensures 0 < n <= |s| && IsLine(s[..n]) && Closed(s[n..])
  {
    if s[0] == NEWLINE then 1
    else
      var n := 1 + FirstEnd(s[1..]);
      assert s[..n] == [s[0]] + s[1..][..n - 1] && s[n..] == s[1..][n - 1..];
      assert s[..n][..n - 1] == [s[0]] + s[1..][..n - 1][..n - 2];
      n
  }

  /** The lines that bytes fall into, at every newline. */
  function Split(s: seq<bv8>): (lines: seq<seq<bv8>>)
    requires Closed(s)
    ensures AllLines(lines) && Text(lines) == s
  {
    if s == [] then []
    else
      var n := FirstEnd(s);
      var rest := Split(s[n..]);
      LineAhead(s, n, rest);
      [s[..n]] + rest
  }

  lemma LineAhead(s: seq<bv8>, n: nat, rest: seq<seq<bv8>>)
    requires n <= |s| && IsLine(s[..n]) && AllLines(rest) && Text(rest) == s[n..]
    ensures AllLines([s[..n]] + rest) && Text([s[..n]] + rest) == s
  {
    hide IsLine;
    assert ([s[..n]] + rest)[1..] == rest;
    assert s[..n] + s[n..] == s;
  }

  function Newlines(s: seq<bv8>): nat {
    if s == [] then 0 else Newlines(s[1..]) + if s[0] == NEWLINE then 1 else 0
  }

  lemma {:induction false} NewlinesAdd(a: seq<bv8>, b: seq<bv8>)
    ensures Newlines(a + b) == Newlines(a) + Newlines(b)
    decreases |a|
  {
    if a == [] {
      assert a + b == b;
    } else {
      assert (a + b)[1..] == a[1..] + b;
      NewlinesAdd(a[1..], b);
    }
  }

  lemma {:induction false} NoNewlines(s: seq<bv8>)
    ensures Newlines(s) == 0 <==> NEWLINE !in s
    decreases |s|
  {
    if s != [] {
      NoNewlines(s[1..]);
      assert s == [s[0]] + s[1..];
    }
  }

  /** A line has one newline, and nothing else that ends in one has. */
  lemma InLine(s: seq<bv8>)
    requires s != [] && Closed(s)
    ensures Newlines(s) >= 1 && (Newlines(s) == 1 <==> IsLine(s))
  {
    var front := s[..|s| - 1];
    assert s == front + [NEWLINE];
    NewlinesAdd(front, [NEWLINE]);
    NoNewlines(front);
  }

  lemma OneInLine(line: seq<bv8>)
    requires IsLine(line)
    ensures Newlines(line) == 1
  {
    InLine(line);
  }

  /** There is a line for every newline. */
  lemma {:induction false} LinePerNewline(s: seq<bv8>)
    requires Closed(s)
    ensures |Split(s)| == Newlines(s)
    decreases |s|
  {
    hide IsLine, AllLines, Text, Newlines;
    if s == [] {
      assert Newlines(s) == 0 by { NoNewlines(s); }
    } else {
      var n := FirstEnd(s);
      LinePerNewline(s[n..]);
      NewlinesAdd(s[..n], s[n..]);
      assert s == s[..n] + s[n..];
      OneInLine(s[..n]);
    }
  }

  lemma SomethingLeft(lines: seq<seq<bv8>>)
    requires AllLines(lines) && lines != []
    ensures |Text(lines)| > 0
  {
    assert IsLine(lines[0]);
  }

  /** The ring holds a message as one line more than it has newlines, so eviction counts it as
      that many: exactly one if and only if what is kept of it has none. */
  lemma MessageEvictsAs(text: seq<bv8>, capacity: nat)
    requires |LineOf(text)| <= capacity
    ensures var lines := Split(LineOf(text));
            && Evicted(lines, capacity, capacity) == []
            && |lines| == Newlines(Kept(text)) + 1
            && (|lines| == 1 <==> OneLine(text))
  {
    LinePerNewline(LineOf(text));
    NewlinesAdd(Kept(text), [NEWLINE]);
    NoNewlines(Kept(text));
    EvictsShortestPrefix(Split(LineOf(text)), capacity, capacity);
    var left := Evicted(Split(LineOf(text)), capacity, capacity);
    if left != [] {
      SomethingLeft(left);
    }
  }

  /** A message with a newline inside, for one: it is taken as one and given up as two. */
  lemma EmbeddedNewlineMiscounts(capacity: nat)
    requires capacity >= 4
    ensures var lines := Split(LineOf([65, NEWLINE, 66]));
            |LineOf([65, NEWLINE, 66])| == 4 && |lines| == 2 && Evicted(lines, capacity, capacity) == []
  {
    var text: seq<bv8> := [65, NEWLINE, 66];
    assert Kept(text) == [65] + ([NEWLINE] + [66]);
    NewlinesAdd([65], [NEWLINE] + [66]);
    NewlinesAdd([NEWLINE], [66]);
    MessageEvictsAs(text, capacity);
  }

  // ---------------------------------------------------------------- accounts of messages

  /** All lines of a list of messages. */
  function Flat(messages: seq<seq<bv8>>): seq<seq<bv8>>
    requires AllMessages(messages)
  {
    if messages == [] then []
    else Flat(messages[..|messages| - 1]) + Split(messages[|messages| - 1])
  }

  /** How many more lines than messages there are. */
  function Surplus(messages: seq<seq<bv8>>): int
    requires AllMessages(messages)
  {
    if messages == [] then 0
    else Surplus(messages[..|messages| - 1]) + |Split(messages[|messages| - 1])| - 1
  }

  predicate AllMessages(messages: seq<seq<bv8>>) {
    forall i :: 0 <= i < |messages| ==> messages[i] != [] && Closed(messages[i])
  }

  lemma OneMoreMessage(messages: seq<seq<bv8>>, line: seq<bv8>)
    requires AllMessages(messages) && line != [] && Closed(line)
    ensures AllMessages(messages + [line])
    ensures Flat(messages + [line]) == Flat(messages) + Split(line)
    ensures Surplus(messages + [line]) == Surplus(messages) + |Split(line)| - 1
  {
    assert (messages + [line])[..|messages|] == messages;
  }

  /** Messages are as many as their lines if and only if every one of them is one line. */
  lemma {:induction false} SurplusIff(messages: seq<seq<bv8>>)
    requires AllMessages(messages)
    ensures Surplus(messages) >= 0
    ensures Surplus(messages) == 0 <==> forall i :: 0 <= i < |messages| ==> IsLine(messages[i])
    decreases |messages|
  {
    hide IsLine, Split, Newlines;
    if messages != [] {
      var front, last := messages[..|messages| - 1], messages[|messages| - 1];
      SurplusIff(front);
      assert forall i :: 0 <= i < |front| ==> front[i] == messages[i];
      LinePerNewline(last);
      InLine(last);
    }
  }

  /** The oldest lines given up until `len` bytes fit, or none is left. */
  function Evicted(lines: seq<seq<bv8>>, len: nat, capacity: nat): (kept: seq<seq<bv8>>)
    ensures |kept| <= |lines| && kept == lines[|lines| - |kept|..]
  {
    if lines == [] || |Text(lines)| + len <= capacity then lines else Evicted(lines[1..], len, capacity)
  }

  /** Eviction takes the shortest prefix of lines that makes room, and all of them only when
      nothing less would do. */
  lemma {:induction false} EvictsShortestPrefix(lines: seq<seq<bv8>>, len: nat, capacity: nat)
    ensures var kept := Evicted(lines, len, capacity);
            && (kept == [] || |Text(kept)| + len <= capacity)
            && (forall k :: 0 <= k < |lines| - |kept| ==> |Text(lines[k..])| + len > capacity)
    decreases |lines|
  {
    if lines != [] && |Text(lines)| + len > capacity {
      EvictsShortestPrefix(lines[1..], len, capacity);
      var kept := Evicted(lines, len, capacity);
      forall k | 0 <= k < |lines| - |kept|
        ensures |Text(lines[k..])| + len > capacity
      {
        if k > 0 {
          assert lines[1..][k - 1..] == lines[k..];
        } else {
          assert lines[0..] == lines;
        }
      }
    }
  }

  /** Eviction gives up everything exactly when the line could not even have the ring to itself,
      or there was nothing in it. */
  lemma {:induction false} EvictedMakesRoomIff(lines: seq<seq<bv8>>, len: nat, capacity: nat)
    ensures |Text(Evicted(lines, len, capacity))| + len <= capacity <==> len <= capacity
    decreases |lines|
  {
    if lines != [] && |Text(lines)| + len > capacity {
      EvictedMakesRoomIff(lines[1..], len, capacity);
    }
  }

  lemma {:induction false} TextConcat(a: seq<seq<bv8>>, b: seq<seq<bv8>>)
    ensures Text(a + b) == Text(a) + Text(b)
    decreases |a|
  {
    if a == [] {
      assert a + b == b;
    } else {
      assert (a + b)[1..] == a[1..] + b;
      TextConcat(a[1..], b);
    }
  }

  /** The first newline of a text of lines ends its first line. */
  lemma FirstNewline(lines: seq<seq<bv8>>, i: nat)
    requires AllLines(lines) && i < |Text(lines)| && Text(lines)[i] == NEWLINE && NEWLINE !in Text(lines)[..i]
    ensures lines != [] && Text(lines)[i + 1..] == Text(lines[1..]) && AllLines(lines[1..])
  {
    var line := lines[0];
    assert IsLine(line);
    var rest := Text(lines[1..]);
    assert Text(lines) == line + rest;
    assert Text(lines)[..|line| - 1] == line[..|line| - 1];
    FirstIsUnique(Text(lines), i, |line| - 1);
  }

  lemma FirstIsUnique(text: seq<bv8>, i: nat, k: nat)
    requires i < |text| && text[i] == NEWLINE && NEWLINE !in text[..i]
    requires k < |text| && text[k] == NEWLINE && NEWLINE !in text[..k]
    ensures i == k
  {}

  /** A call of the log. */
  datatype Act = SetLevel(level: nat) | Write(msgLevel: nat, text: seq<bv8>) | Drain

  /** Does a message of this level pass the filter? */
  predicate Passes(msgLevel: nat, level: nat) {
    msgLevel != 0 && msgLevel <= level
  }

  function LevelAfter(level: nat, acts: seq<Act>): nat {
    if acts == [] then level
    else
      var last := acts[|acts| - 1];
      if last.SetLevel? then last.level else LevelAfter(level, acts[..|acts| - 1])
  }

  /** The messages written that the level in force at their time lets through. */
  function Passing(level: nat, acts: seq<Act>): seq<seq<bv8>> {
    if acts == [] then []
    else
      var front, last := acts[..|acts| - 1], acts[|acts| - 1];
      Passing(level, front)
      + if last.Write? && Passes(last.msgLevel, LevelAfter(level, front)) then [LineOf(last.text)] else []
  }

  class Log {
    const rb: RingBuf
    const onFull: OnFull
    var level: nat
    var dropped: nat

    // history: the messages asked for past the filter and those taken, as written; the lines
    // drained, and those still held
    ghost var asked: seq<seq<bv8>>
    ghost var taken: seq<seq<bv8>>
    ghost var drained: seq<seq<bv8>>
    ghost var lines: seq<seq<bv8>>

    ghost predicate Valid()
      reads this, rb, rb.buffer
    {
      && rb.Valid() && (rb as object) != this
      && rb.Contents() == Text(lines) && AllLines(lines)
      && AllMessages(asked) && AllMessages(taken) && Subsequence(taken, asked)
      && |asked| + Surplus(taken) == |drained| + |lines| + dropped
      && Subsequence(drained + lines, Flat(asked))
    }

    /** Messages asked for are lines drained, held and dropped if and only if no message taken
        has a newline inside. */
    lemma AccountBalancesIff()
      requires Valid()
      ensures |asked| == |drained| + |lines| + dropped <==> forall i :: 0 <= i < |taken| ==> IsLine(taken[i])
      ensures |asked| <= |drained| + |lines| + dropped
    {
      SurplusIff(taken);
    }

    constructor (capacity: nat, onFull: OnFull, level: nat)
      requires capacity > 0
      ensures Valid() && fresh(rb) && fresh(rb.buffer) && rb.buffer.Length == capacity
      ensures this.onFull == onFull && this.level == level && asked == [] && taken == [] && drained == []
              && lines == [] && dropped == 0
    {
      rb := new RingBuf(capacity);
      this.onFull, this.level, dropped := onFull, level, 0;
      asked, taken, drained, lines := [], [], [], [];
    }

    method SetLevel(level: nat)
      requires Valid()
      modifies this`level
      ensures Valid() && this.level == level
    {
      this.level := level;
    }

    /** Discard the oldest line, walking over the wrap if it has to. */
    method EvictOldest(ghost held: seq<seq<bv8>>)
      requires rb.Valid() && AllLines(held) && rb.Contents() == Text(held) && held != []
      modifies rb
      ensures rb.Valid() && rb.Contents() == Text(held[1..]) && AllLines(held[1..])
    {
      hide Text, IsLine, AllLines, RingBuf.Contents;
      ghost var before: seq<bv8> := [];
      while true
        invariant rb.Valid() && before + rb.Contents() == Text(held) && NEWLINE !in before
        decreases rb.count
      {
        var n := rb.PeekLinear();
        if n == 0 {
          break;
        }
        var seg := rb.buffer[rb.readPos..rb.readPos + n];
        assert seg <= rb.Contents();
        var found, i := FindNewline(seg);
        if found {
          LineFound(held, before, rb.Contents(), seg, i);
          var _ := rb.Discard(i + 1);
          return;
        }
        NextSegment(Text(held), before, rb.Contents(), seg);
        before := before + seg;
        var _ := rb.Discard(n);
      }
      assert Text(held) == before by {
        assert before + [] == before;
      }
      NoLineWithoutNewline(held);
      assert false;
    }

    /** nx_log_write from the formatted text on: filter, make room by the policy, and enqueue
        the whole line or drop it. */
    method Write(msgLevel: nat, text: seq<bv8>) returns (ok: bool)
      requires Valid()
      modifies this`dropped, this`asked, this`taken, this`lines, rb, rb.buffer
      ensures Valid() && taken == if ok then old(taken) + [LineOf(text)] else old(taken)
      ensures !Passes(msgLevel, level) ==>
                !ok && asked == old(asked) && lines == old(lines) && dropped == old(dropped)
      ensures Passes(msgLevel, level) ==>
                var line := LineOf(text);
                var kept := if onFull.OverwriteOld? then Evicted(old(lines), |line|, rb.buffer.Length) else old(lines);
                && asked == old(asked) + [line]
                && ok == (|Text(kept)| + |line| <= rb.buffer.Length)
                && lines == (if ok then kept + Split(line) else kept)
                && dropped == old(dropped) + (|old(lines)| - |kept|) + (if ok then 0 else 1)
    {
      hide Evicted, LineOf, IsLine, AllLines, Text, Split, Flat, Surplus, AllMessages, Subsequence, RingBuf.Contents;
      if msgLevel == 0 || msgLevel > level {
        return false;
      }
      var line := LineOf(text);
      if onFull.OverwriteOld? {
        MakeRoom(|line|);
      }
      if rb.buffer.Length - rb.count >= |line| {
        Append(line);
        return true;
      }
      OneMoreMessage(asked, line);
      SubsequenceGrows(taken, asked, asked + [line]);
      SubsequenceGrows(drained + lines, Flat(asked), Flat(asked) + Split(line));
      asked := asked + [line];
      dropped := dropped + 1;
      return false;
    }

    /** Enqueue a message there is room for. */
    method Append(line: seq<bv8>)
      requires Valid() && line != [] && Closed(line) && rb.buffer.Length - rb.count >= |line|
      modifies this`asked, this`taken, this`lines, rb, rb.buffer
      ensures Valid() && asked == old(asked) + [line] && taken == old(taken) + [line]
              && lines == old(lines) + Split(line)
    {
      hide IsLine, AllLines, Text, Split, Flat, Surplus, AllMessages, Subsequence, RingBuf.Contents;
      ghost var more := Split(line);
      OneMoreMessage(asked, line);
      OneMoreMessage(taken, line);
      SubsequenceBoth(taken, asked, line);
      SubsequenceAppend(drained + lines, Flat(asked), more);
      assert drained + (lines + more) == drained + lines + more;
      TextConcat(lines, more);
      MoreLines(lines, more);
      var n := rb.Write(line);
      assert line[..n] == line;
      asked, taken, lines := asked + [line], taken + [line], lines + more;
    }

    /** Evict oldest whole lines until `len` bytes fit or nothing is left. */
    method MakeRoom(len: nat)
      requires Valid()
      modifies this`dropped, this`lines, rb
      ensures Valid() && lines == Evicted(old(lines), len, rb.buffer.Length)
      ensures dropped == old(dropped) + (|old(lines)| - |lines|)
    {
      hide IsLine, AllLines, Text, Evicted, Flat, Surplus, AllMessages, Subsequence, RingBuf.Contents;
      while rb.buffer.Length - rb.count < len && rb.count > 0
        invariant Valid() && |lines| <= |old(lines)|
        invariant Evicted(lines, len, rb.buffer.Length) == Evicted(old(lines), len, rb.buffer.Length)
        invariant dropped == old(dropped) + (|old(lines)| - |lines|)
        decreases |lines|
      {
        NoTextMeansNoLines(lines, len, rb.buffer.Length);
        GiveUpOldest();
      }
      NoTextMeansNoLines(lines, len, rb.buffer.Length);
    }

    /** One line less in the ring, one more on the account. */
    method GiveUpOldest()
      requires Valid() && lines != []
      modifies this`dropped, this`lines, rb
      ensures Valid() && lines == old(lines)[1..] && dropped == old(dropped) + 1
    {
      hide IsLine, AllLines, Text, Flat, Surplus, AllMessages, Subsequence, RingBuf.Contents;
      assert drained + lines == drained + [lines[0]] + lines[1..];
      SubsequenceSkips(drained, lines[0], lines[1..], Flat(asked));
      EvictOldest(lines);
      dropped, lines := dropped + 1, lines[1..];
    }

    /** nx_log_process: hand the sink everything, in chunks of at most a line buffer. */
    method Process() returns (total: nat, sink: seq<bv8>)
      requires Valid()
      modifies this`drained, this`lines, rb
      ensures Valid() && lines == [] && drained == old(drained) + old(lines)
      ensures sink == Text(old(lines)) && total == |sink|
    {
      hide Text, IsLine, AllLines, Flat, Surplus, AllMessages, Subsequence, RingBuf.Contents;
      total, sink := 0, [];
      var n := 1;
      while n != 0
        invariant rb.Valid() && sink + rb.Contents() == Text(lines) && total == |sink|
        invariant n == 0 ==> rb.Contents() == []
        invariant n >= 0 && drained == old(drained) && lines == old(lines)
        decreases rb.count, n
      {
        var chunk := rb.Read(LINE_MAX);
        assert sink + (chunk + rb.Contents()) == sink + chunk + rb.Contents();
        n := |chunk|;
        total := total + n;
        sink := sink + chunk;
      }
      assert sink + [] == sink;
      assert drained + lines + [] == drained + lines;
      drained, lines := drained + lines, [];
      NoText();
    }

    /** Any calls in any order: the account holds what the level in force let through, call by
        call, and the sink gets the lines drained, in order. */
    method Perform(acts: seq<Act>) returns (sink: seq<bv8>)
      requires Valid()
      modifies this`level, this`dropped, this`asked, this`taken, this`drained, this`lines, rb, rb.buffer
      ensures Valid() && level == LevelAfter(old(level), acts)
      ensures asked == old(asked) + Passing(old(level), acts)
      ensures |old(drained)| <= |drained| && drained[..|old(drained)|] == old(drained)
      ensures sink == Text(drained[|old(drained)|..])
    {
      hide AllLines, Text, LineOf, Flat, Surplus, AllMessages, Subsequence, RingBuf.Contents, Valid, Evicted, IsLine, Split;
      sink := [];
      ValidRing();
      NoText();
      assert acts[..0] == [] && drained[|drained|..] == [];
      for i := 0 to |acts|
        invariant Valid() && level == LevelAfter(old(level), acts[..i])
        invariant asked == old(asked) + Passing(old(level), acts[..i])
        invariant |old(drained)| <= |drained| && drained[..|old(drained)|] == old(drained)
        invariant sink == Text(drained[|old(drained)|..])
      {
        assert acts[..i + 1][..i] == acts[..i];
        ValidRing();
        match acts[i] {
          case SetLevel(n) => SetLevel(n);
          case Write(n, text) => var _ := Write(n, text);
          case Drain =>
            ghost var before, more := drained[|old(drained)|..], lines;
            var _, out := Process();
            TextConcat(before, more);
            assert drained[|old(drained)|..] == before + more;
            sink := sink + out;
        }
      }
      assert acts[..|acts|] == acts;
    }

    lemma ValidRing()
      requires Valid()
      ensures rb.Valid() && (rb as object) != this
    {}
  }

  lemma MoreLines(lines: seq<seq<bv8>>, more: seq<seq<bv8>>)
    requires AllLines(lines) && AllLines(more)
    ensures AllLines(lines + more)
  {}

  lemma NoText()
    ensures Text([]) == [] && AllLines([])
  {}

  /** No bytes, no lines; and what eviction does when there is no room, and when there is. */
  lemma NoTextMeansNoLines(lines: seq<seq<bv8>>, len: nat, capacity: nat)
    requires AllLines(lines)
    ensures |Text(lines)| == 0 <==> lines == []
    ensures lines != [] && capacity - |Text(lines)| < len ==>
            Evicted(lines, len, capacity) == Evicted(lines[1..], len, capacity)
    ensures lines == [] || capacity - |Text(lines)| >= len ==> Evicted(lines, len, capacity) == lines
  {}

  lemma NoLineWithoutNewline(lines: seq<seq<bv8>>)
    requires AllLines(lines) && lines != []
    ensures NEWLINE in Text(lines)
  {}

  /** The scan of one contiguous segment. */
  method FindNewline(seg: seq<bv8>) returns (found: bool, i: nat)
    ensures found ==> i < |seg| && seg[i] == NEWLINE && NEWLINE !in seg[..i]
    ensures !found ==> NEWLINE !in seg
  {
    i := 0;
    while i < |seg|
      invariant i <= |seg| && NEWLINE !in seg[..i]
    {
      if seg[i] == NEWLINE {
        return true, i;
      }
      i := i + 1;
    }
    assert seg[..i] == seg;
    return false, i;
  }

  lemma NewlineAt(text: seq<bv8>, before: seq<bv8>, rest: seq<bv8>, seg: seq<bv8>, i: nat)
    requires before + rest == text && NEWLINE !in before && seg <= rest
    requires i < |seg| && seg[i] == NEWLINE && NEWLINE !in seg[..i]
    ensures |before| + i < |text| && text[|before| + i] == NEWLINE && NEWLINE !in text[..|before| + i]
    ensures text[|before| + i + 1..] == rest[i + 1..]
  {}

  /** What lies behind the first newline found is the text of the other lines. */
  lemma LineFound(held: seq<seq<bv8>>, before: seq<bv8>, rest: seq<bv8>, seg: seq<bv8>, i: nat)
    requires AllLines(held) && before + rest == Text(held) && NEWLINE !in before && seg <= rest
    requires i < |seg| && seg[i] == NEWLINE && NEWLINE !in seg[..i]
    ensures held != [] && rest[i + 1..] == Text(held[1..]) && AllLines(held[1..])
  {
    hide Text, AllLines;
    NewlineAt(Text(held), before, rest, seg, i);
    FirstNewline(held, |before| + i);
  }

  lemma NextSegment(text: seq<bv8>, before: seq<bv8>, rest: seq<bv8>, seg: seq<bv8>)
    requires before + rest == text && NEWLINE !in before && seg <= rest && NEWLINE !in seg
    ensures before + seg + rest[|seg|..] == text && NEWLINE !in before + seg
  {}
}
