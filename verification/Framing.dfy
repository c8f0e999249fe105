/**
 Newline framing of the watch process's output. The loop works on whatever chunks arrive; `Whole`
 says what the stream means without chunks. Blank lines skip the per-line length check, so the two
 agree for every chunking exactly on the streams that `Safe` describes.
 */
module Framing {
  import opened Paths

  type Bytes = seq<bv8>

  const NEWLINE: bv8 := 10
  const MAX_LINE := 4 * 1024 * 1024
  const MAX_CHUNK := 65536

  predicate IsSpace(b: bv8) {
    b == 32 || (9 <= b <= 13)
  }

  /** `not raw.strip()` */
  predicate Blank(s: Bytes) {
    forall i :: 0 <= i < |s| ==> IsSpace(s[i])
  }

  /** Index of the first newline, or the length when there is none. */
  function Cut(s: Bytes): (i: nat)
    ensures i <= |s|
    ensures forall j :: 0 <= j < i ==> s[j] != NEWLINE
    ensures i < |s| ==> s[i] == NEWLINE
  {
    if s == [] || s[0] == NEWLINE then 0 else 1 + Cut(s[1..])
  }

  /** The events delivered in order, and whether an error follows them. */
  datatype Outcome<E> = Outcome(events: seq<E>, failed: bool)

  function Then<E>(e: E, o: Outcome<E>): Outcome<E> {
    o.(events := [e] + o.events)
  }

  function Stop<E>(): Outcome<E> {
    Outcome([], true)
  }

  /** The meaning of a whole stream; `parse` decodes and validates one line. */
  function Whole<E>(parse: Bytes -> Option<E>, s: Bytes): Outcome<E>
    decreases |s|
  {
    var i := Cut(s);
    if i == |s| then Outcome([], !Blank(s))
    else
      var line, rest := s[..i], s[i + 1..];
      if Blank(line) then Whole(parse, rest)
      else if |line| > MAX_LINE then Stop()
      else
        match parse(line)
        case None => Stop()
        case Some(e) => Then(e, Whole(parse, rest))
  }

  /** Any blank line over the bound, reached before an error, is followed by an error without events. */
  predicate Safe<E(==)>(parse: Bytes -> Option<E>, s: Bytes)
    decreases |s|
  {
    var i := Cut(s);
    if i == |s| then Blank(s) ==> |s| <= MAX_LINE
    else
      var line, rest := s[..i], s[i + 1..];
      if Blank(line) then if |line| > MAX_LINE then Whole(parse, rest) == Stop() else Safe(parse, rest)
      else if |line| > MAX_LINE then true
      else parse(line).None? || Safe(parse, rest)
  }

  // ---------- the loop ----------

  /** The inner loop: every complete line of the buffer, then what is left of it. */
  function Drain<E>(parse: Bytes -> Option<E>, pending: Bytes): (r: (Outcome<E>, Bytes))
    ensures !r.0.failed ==> Cut(r.1) == |r.1| <= |pending|
    decreases |pending|
  {
    var i := Cut(pending);
    if i == |pending| then (Outcome([], false), pending)
    else
      var line, rest := pending[..i], pending[i + 1..];
      if Blank(line) then Drain(parse, rest)
      else if |line| > MAX_LINE then (Stop(), rest)
      else
        match parse(line)
        case None => (Stop(), rest)
        case Some(e) => var r := Drain(parse, rest); (Then(e, r.0), r.1)
  }

  /** The outer loop from a buffer and the chunks still to come. */
  function Chunked<E>(parse: Bytes -> Option<E>, pending: Bytes, chunks: seq<Bytes>): Outcome<E>
    decreases |chunks|
  {
    if chunks == [] then Outcome([], !Blank(pending))
    else
      var buffer := pending + chunks[0];
      if |buffer| > MAX_LINE && Cut(buffer) == |buffer| then Stop()
      else
        var (o, rest) := Drain(parse, buffer);
        if o.failed then o
        else
          var more := Chunked(parse, rest, chunks[1..]);
          Outcome(o.events + more.events, more.failed)
  }

  predicate Legal(chunks: seq<Bytes>) {
    forall i :: 0 <= i < |chunks| ==> 1 <= |chunks[i]| <= MAX_CHUNK
  }

  function Flatten(chunks: seq<Bytes>): Bytes {
    if chunks == [] then [] else chunks[0] + Flatten(chunks[1..])
  }

  /** The reading loop of the watch session, on the chunks its pipe delivers. */
  method ReadEvents<E>(parse: Bytes -> Option<E>, chunks: seq<Bytes>) returns (events: seq<E>, failed: bool)
    requires Legal(chunks)
    ensures Outcome(events, failed) == Chunked(parse, [], chunks)
    ensures Safe(parse, Flatten(chunks)) ==> Outcome(events, failed) == Whole(parse, Flatten(chunks))
  {
    ReadsTheStream(parse, chunks);
    hide Safe;
    hide Whole;
    hide Flatten;
    var pending: Bytes := [];
    events, failed := [], false;
    ghost var goal := Chunked(parse, [], chunks);
    for k := 0 to |chunks|
      invariant !failed && Cut(pending) == |pending| <= MAX_LINE
      invariant goal == Prepend(events, Chunked(parse, pending, chunks[k..]))
    {
      var chunk := chunks[k];
      ghost var rest := chunks[k..];
      assert rest[0] == chunk && rest[1..] == chunks[k + 1..];
      var buffer := pending + chunk;
      if |buffer| > MAX_LINE && Cut(buffer) == |buffer| {
        return events, true;
      }
      TailIsShort(parse, pending, chunk);
      hide Drain;
      var more;
      more, failed, pending := DrainLines(parse, buffer);
      PrependTwice(events, more, Chunked(parse, pending, chunks[k + 1..]));
      events := events + more;
      if failed {
        return;
      }
    }
    failed := !Blank(pending);
  }

  lemma ReadsTheStream<E>(parse: Bytes -> Option<E>, chunks: seq<Bytes>)
    ensures Safe(parse, Flatten(chunks)) ==> Chunked(parse, [], chunks) == Whole(parse, Flatten(chunks))
  {
    assert [] + Flatten(chunks) == Flatten(chunks);
    if Safe(parse, Flatten(chunks)) {
      SafeChunks(parse, [], chunks);
    }
  }

  function Prepend<E>(events: seq<E>, o: Outcome<E>): Outcome<E> {
    o.(events := events + o.events)
  }

  lemma PrependTwice<E>(a: seq<E>, b: seq<E>, o: Outcome<E>)
    ensures Prepend(a, Prepend(b, o)) == Prepend(a + b, o)
  {
  }

  method DrainLines<E>(parse: Bytes -> Option<E>, buffer: Bytes) returns (events: seq<E>, failed: bool, pending: Bytes)
    ensures Outcome(events, failed) == Drain(parse, buffer).0
    ensures !failed ==> pending == Drain(parse, buffer).1
  {
    pending, events, failed := buffer, [], false;
    while Cut(pending) < |pending|
      invariant Drain(parse, buffer).0 == Prepend(events, Drain(parse, pending).0)
      invariant Drain(parse, buffer).1 == Drain(parse, pending).1
      decreases |pending|
    {
      var i := Cut(pending);
      var raw := pending[..i];
      pending := pending[i + 1..];
      if Blank(raw) {
        continue;
      }
      if |raw| > MAX_LINE {
        return events, true, pending;
      }
      var event := parse(raw);
      if event.None? {
        return events, true, pending;
      }
      PrependTwice(events, [event.value], Drain(parse, pending).0);
      events := events + [event.value];
    }
  }

  /** What remains after a buffer with a newline is part of the last chunk. */
  lemma TailIsShort<E>(parse: Bytes -> Option<E>, pending: Bytes, chunk: Bytes)
    requires Cut(pending) == |pending| <= MAX_LINE && |chunk| <= MAX_CHUNK
    requires |pending + chunk| <= MAX_LINE || Cut(pending + chunk) < |pending + chunk|
    ensures !Drain(parse, pending + chunk).0.failed ==> |Drain(parse, pending + chunk).1| <= MAX_LINE
  {
  }

  // ---------- what the stream means, line by line ----------

  /** Nothing but blanks, tabs, line feeds, vertical tabs, form feeds and carriage returns. */
  predicate OnlySpace(s: Bytes) {
    forall b :: b in s ==> b in {9, 10, 11, 12, 13, 32}
  }

  predicate Acceptable<E>(parse: Bytes -> Option<E>, line: Bytes) {
    OnlySpace(line) || (|line| <= 4 * 1024 * 1024 && parse(line).Some?)
  }

  ghost predicate AreLines(lines: seq<Bytes>) {
    forall i :: 0 <= i < |lines| ==> NEWLINE !in lines[i]
  }

  function Joined(lines: seq<Bytes>): Bytes {
    if lines == [] then [] else lines[0] + [NEWLINE] + Joined(lines[1..])
  }

  /** The parsed lines in order, those of nothing but space left out. */
  function Events<E>(parse: Bytes -> Option<E>, lines: seq<Bytes>): seq<E> {
    if lines == [] then []
    else
      (if OnlySpace(lines[0]) || parse(lines[0]).None? then [] else [parse(lines[0]).value]) + Events(parse, lines[1..])
  }

  lemma CutOfLine(line: Bytes, rest: Bytes)
    requires NEWLINE !in line
    ensures Cut(line) == |line| && Cut(line + [NEWLINE] + rest) == |line|
    ensures (line + [NEWLINE] + rest)[..|line|] == line && (line + [NEWLINE] + rest)[|line| + 1..] == rest
  {
    var s := line + [NEWLINE] + rest;
    assert s[|line|] == NEWLINE && forall i :: 0 <= i < |line| ==> s[i] == line[i] && line[i] in line;
    assert forall i :: 0 <= i < |line| ==> line[i] in line;
  }

  lemma BlankIsOnlySpace(s: Bytes)
    ensures Blank(s) <==> OnlySpace(s)
  {
    if Blank(s) {
      assert forall b :: b in s ==> IsSpace(b);
    } else {
      var i :| 0 <= i < |s| && !IsSpace(s[i]);
      assert s[i] in s;
    }
  }

  /** A stream of lines, the first `n` of which are acceptable and the next one, if there is one, is not,
      delivers the events of these and then fails; without such a line it fails exactly if it ends in the
      middle of a line that is not only space. */
  lemma {:induction false} WholeMeans<E>(parse: Bytes -> Option<E>, lines: seq<Bytes>, tail: Bytes, n: nat)
    requires AreLines(lines) && NEWLINE !in tail && n <= |lines|
    requires forall i :: 0 <= i < n ==> Acceptable(parse, lines[i])
    requires n < |lines| ==> !Acceptable(parse, lines[n])
    ensures Whole(parse, Joined(lines) + tail)
            == Outcome(Events(parse, lines[..n]), n < |lines| || !OnlySpace(tail))
    decreases |lines|
  {
    if lines == [] {
      assert Joined(lines) + tail == tail && lines[..n] == [];
      CutOfLine(tail, []);
      BlankIsOnlySpace(tail);
    } else {
      var line, rest := lines[0], Joined(lines[1..]) + tail;
      assert Joined(lines) + tail == line + [NEWLINE] + rest;
      CutOfLine(line, rest);
      BlankIsOnlySpace(line);
      WholeStep(parse, line + [NEWLINE] + rest, line, rest);
      if n > 0 {
        WholeMeans(parse, lines[1..], tail, n - 1);
        assert lines[..n][1..] == lines[1..][..n - 1];
      } else {
        assert lines[..n] == [];
      }
    }
    hide Cut;
    hide Blank;
    hide OnlySpace;
  }

  /** Every stream is one of lines. */
  lemma {:induction false} EveryStreamIsLines(s: Bytes) returns (lines: seq<Bytes>, tail: Bytes)
    ensures AreLines(lines) && NEWLINE !in tail && s == Joined(lines) + tail
    decreases |s|
  {
    var i := Cut(s);
    if i == |s| {
      lines, tail := [], s;
      assert Joined([]) + s == s;
    } else {
      var more, last := EveryStreamIsLines(s[i + 1..]);
      lines, tail := [s[..i]] + more, last;
      assert s == s[..i] + [NEWLINE] + s[i + 1..];
      assert lines[1..] == more;
    }
  }

  // ---------- chunks against the whole stream ----------

  lemma CutOfPrefix(s: Bytes, t: Bytes)
    ensures Cut(s) < |s| ==> Cut(s + t) == Cut(s)
    ensures Cut(s) == |s| ==> Cut(s + t) == |s| + Cut(t)
  {
    var i := Cut(s + t);
    assert forall j :: 0 <= j < |s| ==> (s + t)[j] == s[j];
    assert forall j :: 0 <= j < |t| ==> (s + t)[|s| + j] == t[j];
    if Cut(s) < |s| {
      assert (s + t)[Cut(s)] == NEWLINE;
    } else if Cut(t) < |t| {
      assert (s + t)[|s| + Cut(t)] == NEWLINE;
    }
  }

  /** The first line of a buffer is the first line of the stream it begins. */
  lemma FirstLine(buffer: Bytes, rest: Bytes)
    requires Cut(buffer) < |buffer|
    ensures Cut(buffer + rest) == Cut(buffer) < |buffer + rest|
    ensures (buffer + rest)[..Cut(buffer)] == buffer[..Cut(buffer)]
    ensures (buffer + rest)[Cut(buffer) + 1..] == buffer[Cut(buffer) + 1..] + rest
  {
    hide *;
    CutOfPrefix(buffer, rest);
    SplitInFront(buffer, rest, Cut(buffer));
  }

  lemma WholeStep<E>(parse: Bytes -> Option<E>, s: Bytes, line: Bytes, rest: Bytes)
    requires Cut(s) < |s| && s[..Cut(s)] == line && s[Cut(s) + 1..] == rest
    ensures Whole(parse, s) ==
            if Blank(line) then Whole(parse, rest)
            else if |line| > MAX_LINE || parse(line).None? then Stop()
            else Then(parse(line).value, Whole(parse, rest))
  {
  }

  lemma SafeStep<E>(parse: Bytes -> Option<E>, s: Bytes, line: Bytes, rest: Bytes)
    requires Cut(s) < |s| && s[..Cut(s)] == line && s[Cut(s) + 1..] == rest
    ensures Safe(parse, s) ==
            if Blank(line) then (if |line| > MAX_LINE then Whole(parse, rest) == Stop() else Safe(parse, rest))
            else |line| > MAX_LINE || parse(line).None? || Safe(parse, rest)
  {
    hide Cut;
    hide Blank;
    hide Whole;
  }

  lemma DrainStep<E>(parse: Bytes -> Option<E>, s: Bytes, line: Bytes, rest: Bytes)
    requires Cut(s) < |s| && s[..Cut(s)] == line && s[Cut(s) + 1..] == rest
    ensures Drain(parse, s) ==
            if Blank(line) then Drain(parse, rest)
            else if |line| > MAX_LINE || parse(line).None? then (Stop(), rest)
            else (Then(parse(line).value, Drain(parse, rest).0), Drain(parse, rest).1)
  {
  }

  lemma PrependNext<E>(e: E, events: seq<E>, o: Outcome<E>)
    ensures Then(e, Prepend(events, o)) == Prepend([e] + events, o)
    ensures Prepend([], o) == o
  {
  }

  /** Draining the start of a stream is the start of what the whole stream means. */
  lemma {:induction false} DrainIsPrefix<E>(parse: Bytes -> Option<E>, buffer: Bytes, rest: Bytes)
    requires Safe(parse, buffer + rest)
    ensures var (o, left) := Drain(parse, buffer);
            if o.failed then Whole(parse, buffer + rest) == o
            else Whole(parse, buffer + rest) == Prepend(o.events, Whole(parse, left + rest))
                 && (Safe(parse, left + rest) || Whole(parse, left + rest) == Stop())
    decreases |buffer|
  {
    var i := Cut(buffer);
    if i < |buffer| {
      var line, tail := buffer[..i], buffer[i + 1..];
      FirstLine(buffer, rest);
      WholeStep(parse, buffer + rest, line, tail + rest);
      SafeStep(parse, buffer + rest, line, tail + rest);
      DrainStep(parse, buffer, line, tail);
      hide Whole;
      hide Safe;
      hide Drain;
      hide Cut;
      hide Prepend;
      hide Then;
      if Blank(line) || (|line| <= MAX_LINE && parse(line).Some?) {
        var (o, left) := Drain(parse, tail);
        if Safe(parse, tail + rest) {
          DrainIsPrefix(parse, tail, rest);
        } else {
          StoppedDrain(parse, tail, rest);
          StopPrepends(Whole(parse, left + rest), o);
        }
        if !Blank(line) {
          PrependNext(parse(line).value, o.events, Whole(parse, left + rest));
          ThenKeeps(parse(line).value, o);
        }
      }
    } else {
      PrependNothing(Whole(parse, buffer + rest));
    }
  }

  lemma PrependNothing<E>(o: Outcome<E>)
    ensures Prepend([], o) == o
  {
  }

  lemma ThenKeeps<E>(e: E, o: Outcome<E>)
    ensures Then(e, o).failed == o.failed && Then(e, o).events == [e] + o.events
  {
  }

  lemma StopPrepends<E>(w: Outcome<E>, o: Outcome<E>)
    ensures o.events == [] ==> Prepend(o.events, w) == w
    ensures o.events == [] && o.failed ==> o == Stop()
  {
  }

  lemma SplitInFront(buffer: Bytes, rest: Bytes, i: nat)
    requires i < |buffer|
    ensures (buffer + rest)[..i] == buffer[..i] && (buffer + rest)[i + 1..] == buffer[i + 1..] + rest
  {
  }

  /** A stream that means an immediate error is reported as one, whatever part of it is drained first. */
  lemma {:induction false} StoppedDrain<E>(parse: Bytes -> Option<E>, buffer: Bytes, rest: Bytes)
    requires Whole(parse, buffer + rest) == Stop()
    ensures var (o, left) := Drain(parse, buffer);
            o.events == [] && (o.failed || Whole(parse, left + rest) == Stop())
    decreases |buffer|
  {
    var i := Cut(buffer);
    CutOfPrefix(buffer, rest);
    if i < |buffer| {
      var s := buffer + rest;
      SplitInFront(buffer, rest, i);
      if Blank(buffer[..i]) {
        StoppedDrain(parse, buffer[i + 1..], rest);
      }
    }
  }

  lemma {:induction false} StoppedChunks<E>(parse: Bytes -> Option<E>, pending: Bytes, chunks: seq<Bytes>)
    requires Whole(parse, pending + Flatten(chunks)) == Stop() && Cut(pending) == |pending|
    ensures Chunked(parse, pending, chunks) == Stop()
    decreases |chunks|
  {
    if chunks == [] {
      assert pending + Flatten(chunks) == pending;
    } else {
      var buffer := pending + chunks[0];
      assert pending + Flatten(chunks) == buffer + Flatten(chunks[1..]);
      StoppedDrain(parse, buffer, Flatten(chunks[1..]));
      var (o, left) := Drain(parse, buffer);
      if !o.failed {
        StoppedChunks(parse, left, chunks[1..]);
      }
    }
  }

  /** On a safe stream an over-long unfinished line already means an error. */
  lemma LongStart<E>(parse: Bytes -> Option<E>, buffer: Bytes, rest: Bytes)
    requires Cut(buffer) == |buffer| > MAX_LINE && Safe(parse, buffer + rest)
    ensures Whole(parse, buffer + rest) == Stop()
  {
  }

  lemma {:induction false} SafeChunks<E>(parse: Bytes -> Option<E>, pending: Bytes, chunks: seq<Bytes>)
    requires Safe(parse, pending + Flatten(chunks)) && Cut(pending) == |pending|
    ensures Chunked(parse, pending, chunks) == Whole(parse, pending + Flatten(chunks))
    decreases |chunks|
  {
    if chunks == [] {
      assert pending + Flatten(chunks) == pending;
    } else {
      var buffer := pending + chunks[0];
      var rest := Flatten(chunks[1..]);
      assert pending + Flatten(chunks) == buffer + rest;
      if |buffer| > MAX_LINE && Cut(buffer) == |buffer| {
        LongStart(parse, buffer, rest);
      } else {
        DrainIsPrefix(parse, buffer, rest);
        hide Safe;
        hide Whole;
        var (o, left) := Drain(parse, buffer);
        if !o.failed {
          if Safe(parse, left + rest) {
            SafeChunks(parse, left, chunks[1..]);
          } else {
            StoppedChunks(parse, left, chunks[1..]);
          }
        }
      }
    }
  }

  // ---------- the converse, read one byte at a time ----------

  function Singles(s: Bytes): (r: seq<Bytes>)
    ensures |r| == |s| && forall i :: 0 <= i < |s| ==> r[i] == [s[i]]
  {
    seq(|s|, i requires 0 <= i < |s| => [s[i]])
  }

  /** The meaning of a stream in which every line, blank or not, obeys the bound. */
  function Strict<E>(parse: Bytes -> Option<E>, s: Bytes): Outcome<E>
    decreases |s|
  {
    var i := Cut(s);
    if i > MAX_LINE then Stop()
    else if i == |s| then Outcome([], !Blank(s))
    else
      var line, rest := s[..i], s[i + 1..];
      if Blank(line) then Strict(parse, rest)
      else
        match parse(line)
        case None => Stop()
        case Some(e) => Then(e, Strict(parse, rest))
  }

  lemma {:induction false} StrictIffSafe<E>(parse: Bytes -> Option<E>, s: Bytes)
    ensures Strict(parse, s) == Whole(parse, s) <==> Safe(parse, s)
    decreases |s|
  {
    var i := Cut(s);
    if i < |s| {
      StrictIffSafe(parse, s[i + 1..]);
      var line, rest := s[..i], s[i + 1..];
      if !Blank(line) && |line| <= MAX_LINE && parse(line).Some? {
        var e := parse(line).value;
        ThenIsInjective(e, Strict(parse, rest), Whole(parse, rest));
      }
    }
  }

  lemma ThenIsInjective<E>(e: E, a: Outcome<E>, b: Outcome<E>)
    ensures Then(e, a) == Then(e, b) <==> a == b
  {
    assert ([e] + a.events)[1..] == a.events && ([e] + b.events)[1..] == b.events;
  }

  lemma {:induction false} ByteByByte<E>(parse: Bytes -> Option<E>, pending: Bytes, s: Bytes)
    requires Cut(pending) == |pending| <= MAX_LINE
    ensures Chunked(parse, pending, Singles(s)) == Strict(parse, pending + s)
    decreases |s|
  {
    if s == [] {
      assert pending + s == pending;
    } else {
      var buffer := pending + [s[0]];
      assert Singles(s)[1..] == Singles(s[1..]);
      assert pending + s == buffer + s[1..];
      if s[0] != NEWLINE {
        LongerLine(pending, s[0]);
        OneByteNoLine(parse, buffer);
        if |buffer| <= MAX_LINE {
          hide *;
          ChunkedNext(parse, pending, s, buffer);
          ByteByByte(parse, buffer, s[1..]);
        } else {
          CutOfPrefix(buffer, s[1..]);
        }
      } else {
        NewlineEnds(parse, pending, s[1..]);
        hide *;
        ChunkedLine(parse, pending, s);
        assert [] + s[1..] == s[1..];
        NoLineInNothing();
        ByteByByte(parse, [], s[1..]);
      }
    }
  }

  lemma NoLineInNothing()
    ensures Cut([]) == 0
  {
  }

  lemma LongerLine(pending: Bytes, b: bv8)
    requires Cut(pending) == |pending|
    ensures b != NEWLINE ==> Cut(pending + [b]) == |pending| + 1
    ensures b == NEWLINE ==> Cut(pending + [b]) == |pending|
  {
    CutOfPrefix(pending, [b]);
  }

  lemma ChunkedNext<E>(parse: Bytes -> Option<E>, pending: Bytes, s: Bytes, buffer: Bytes)
    requires s != [] && buffer == pending + [s[0]] && Cut(buffer) == |buffer| <= MAX_LINE
    ensures Chunked(parse, pending, Singles(s)) == Chunked(parse, buffer, Singles(s[1..]))
  {
    OneByteNoLine(parse, buffer);
    hide Drain;
    assert Singles(s)[1..] == Singles(s[1..]);
    PrependNothing(Chunked(parse, buffer, Singles(s[1..])));
  }

  lemma ChunkedLine<E>(parse: Bytes -> Option<E>, pending: Bytes, s: Bytes)
    requires s != [] && s[0] == NEWLINE && Cut(pending) == |pending| <= MAX_LINE
    ensures Chunked(parse, pending, Singles(s)) ==
            if Blank(pending) then Chunked(parse, [], Singles(s[1..]))
            else if parse(pending).None? then Stop()
            else Then(parse(pending).value, Chunked(parse, [], Singles(s[1..])))
  {
    DrainOneLine(parse, pending);
    LongerLine(pending, NEWLINE);
    hide Drain;
    assert Singles(s)[1..] == Singles(s[1..]);
    PrependNothing(Chunked(parse, [], Singles(s[1..])));
  }

  lemma NewlineEnds<E>(parse: Bytes -> Option<E>, line: Bytes, rest: Bytes)
    requires Cut(line) == |line| <= MAX_LINE
    ensures Strict(parse, line + [NEWLINE] + rest) ==
            if Blank(line) then Strict(parse, rest)
            else if parse(line).None? then Stop() else Then(parse(line).value, Strict(parse, rest))
  {
    LongerLine(line, NEWLINE);
    var s := line + [NEWLINE];
    FirstLine(s, rest);
    assert s[..|line|] == line && s[|line| + 1..] + rest == rest;
  }

  lemma OneByteNoLine<E>(parse: Bytes -> Option<E>, buffer: Bytes)
    requires Cut(buffer) == |buffer|
    ensures Drain(parse, buffer) == (Outcome([], false), buffer)
  {
  }

  lemma DrainOneLine<E>(parse: Bytes -> Option<E>, line: Bytes)
    requires Cut(line) == |line| <= MAX_LINE
    ensures Drain(parse, line + [NEWLINE]) ==
            (if Blank(line) then Outcome([], false)
             else if parse(line).None? then Stop() else Outcome([parse(line).value], false), [])
  {
    hide Drain;
    hide Cut;
    hide Blank;
    LongerLine(line, NEWLINE);
    var buffer := line + [NEWLINE];
    LineAndNothing(line);
    DrainStep(parse, buffer, line, []);
    NoLineInNothing();
    OneByteNoLine(parse, []);
    assert parse(line).Some? ==> [parse(line).value] + [] == [parse(line).value];
  }

  lemma LineAndNothing(line: Bytes)
    ensures (line + [NEWLINE])[..|line|] == line && (line + [NEWLINE])[|line| + 1..] == []
  {
  }

  lemma {:induction false} SinglesFlatten(s: Bytes)
    ensures Flatten(Singles(s)) == s && Legal(Singles(s))
  {
    if s != [] {
      SinglesFlatten(s[1..]);
      assert Singles(s)[1..] == Singles(s[1..]);
    }
  }

  // ---------- main result ----------

  /** The delivered events, and whether an error follows, are independent of how the pipe cuts the
      stream into chunks if and only if the stream is safe. */
  lemma ChunkingIsInvisible<E(!new)>(parse: Bytes -> Option<E>, s: Bytes)
    ensures Safe(parse, s) <==>
            forall chunks :: Legal(chunks) && Flatten(chunks) == s ==> Chunked(parse, [], chunks) == Whole(parse, s)
  {
    forall chunks | Safe(parse, s) && Legal(chunks) && Flatten(chunks) == s
      ensures Chunked(parse, [], chunks) == Whole(parse, s)
    {
      ReadsTheStream(parse, chunks);
    }
    if !Safe(parse, s) {
      SinglesFlatten(s);
      ByteByByte(parse, [], s);
      StrictIffSafe(parse, s);
      assert [] + s == s;
      assert Chunked(parse, [], Singles(s)) != Whole(parse, s);
    }
  }

  /** No whitespace-only line, the unfinished last one included, exceeds the bound. */
  predicate NoLongBlank(s: Bytes)
    decreases |s|
  {
    var i := Cut(s);
    (Blank(s[..i]) ==> i <= MAX_LINE) && (i < |s| ==> NoLongBlank(s[i + 1..]))
  }

  /** In particular every stream without such a line is independent of its chunking. */
  lemma {:induction false} NoLongBlankIsSafe<E>(parse: Bytes -> Option<E>, s: Bytes)
    requires NoLongBlank(s)
    ensures Safe(parse, s)
    decreases |s|
  {
    var i := Cut(s);
    if i < |s| {
      NoLongBlankIsSafe(parse, s[i + 1..]);
    } else {
      assert s[..i] == s;
    }
  }

  /** The bound matters: one blank line just over it, then the end, is not safe. */
  lemma LongBlankLineIsUnsafe<E>(parse: Bytes -> Option<E>, blank: Bytes)
    requires Blank(blank) && Cut(blank) == |blank| == MAX_LINE + 1
    ensures !Safe(parse, blank + [NEWLINE])
    ensures Whole(parse, blank + [NEWLINE]) == Outcome([], false)
  {
  }
}
