/** Literal matching over a stream of chunks with an overlap window. */
module Streaming {
  import opened Paths

  type Bytes = seq<bv8>

  const MAX_INSPECTION_BYTES := 16 * 1024 * 1024

  datatype Rule = Rule(id: string, literal: Bytes)

  ghost predicate OccursAt(literal: Bytes, content: Bytes, i: int) {
    0 <= i <= |content| - |literal| && content[i..i + |literal|] == literal
  }

  ghost predicate OccursIn(literal: Bytes, content: Bytes) {
    exists i :: OccursAt(literal, content, i)
  }

  /** The identifiers of the rules whose literal occurs anywhere in the whole content. */
  ghost function Matching(rules: seq<Rule>, content: Bytes): set<string> {
    set r | r in rules && OccursIn(r.literal, content) :: r.id
  }

  function Flatten(chunks: seq<Bytes>): Bytes {
    if chunks == [] then [] else Flatten(chunks[..|chunks| - 1]) + chunks[|chunks| - 1]
  }

  function MaxLiteral(rules: seq<Rule>): (m: nat)
    ensures forall r :: r in rules ==> |r.literal| <= m
  {
    if rules == [] then 0
    else
      var m := MaxLiteral(rules[..|rules| - 1]);
      assert rules == rules[..|rules| - 1] + [rules[|rules| - 1]];
      if m < |rules[|rules| - 1].literal| then |rules[|rules| - 1].literal| else m
  }

  /** The last `min(n, |s|)` bytes, as the slice `s[-n:]` for positive `n`. */
  function Last(s: Bytes, n: nat): Bytes {
    if |s| <= n then s else s[|s| - n..]
  }

  function Prefix(s: Bytes, n: nat): Bytes {
    if |s| <= n then s else s[..n]
  }

  /** The tail kept between chunks. */
  function TailOf(rules: seq<Rule>, content: Bytes): Bytes {
    if MaxLiteral(rules) > 1 then Last(content, MaxLiteral(rules) - 1) else []
  }

  // ---------- why the window suffices ----------

  lemma OccurrenceInPrefix(literal: Bytes, before: Bytes, chunk: Bytes, i: int)
    requires i + |literal| <= |before|
    ensures OccursAt(literal, before + chunk, i) <==> OccursAt(literal, before, i)
  {
  }

  lemma OccurrenceInSuffix(literal: Bytes, cut: Bytes, window: Bytes, i: int)
    requires |cut| <= i
    ensures OccursAt(literal, cut + window, i) <==> OccursAt(literal, window, i - |cut|)
  {
  }

  /** A non-empty literal no longer than the window occurs in the content exactly when it already
      occurred or it occurs in the kept tail followed by the new chunk. */
  lemma WindowSuffices(literal: Bytes, before: Bytes, chunk: Bytes, keep: nat)
    requires 1 <= |literal| <= keep + 1
    ensures OccursIn(literal, before + chunk) <==>
            OccursIn(literal, before) || OccursIn(literal, Last(before, keep) + chunk)
  {
    var tail := Last(before, keep);
    var cut := before[..|before| - |tail|];
    assert before == cut + tail;
    assert before + chunk == cut + (tail + chunk);
    if OccursIn(literal, before + chunk) {
      var i :| OccursAt(literal, before + chunk, i);
      if i + |literal| <= |before| {
        OccurrenceInPrefix(literal, before, chunk, i);
        assert OccursAt(literal, before, i);
      } else {
        OccurrenceInSuffix(literal, cut, tail + chunk, i);
        assert OccursAt(literal, tail + chunk, i - |cut|);
      }
    }
    if OccursIn(literal, before) {
      var i :| OccursAt(literal, before, i);
      OccurrenceInPrefix(literal, before, chunk, i);
      assert OccursAt(literal, before + chunk, i);
    }
    if OccursIn(literal, tail + chunk) {
      var i :| OccursAt(literal, tail + chunk, i);
      OccurrenceInSuffix(literal, cut, tail + chunk, i + |cut|);
      assert OccursAt(literal, before + chunk, i + |cut|);
    }
  }

  lemma TailMovesOn(before: Bytes, chunk: Bytes, keep: nat)
    ensures Last(Last(before, keep) + chunk, keep) == Last(before + chunk, keep)
  {
  }

  /** The rules found so far, plus those found in the next window, are those of the longer content. */
  lemma {:induction false} WindowStep(rules: seq<Rule>, before: Bytes, chunk: Bytes)
    requires forall r :: r in rules ==> r.literal != []
    ensures Matching(rules, before + chunk)
            == Matching(rules, before) + Matching(rules, TailOf(rules, before) + chunk)
    ensures TailOf(rules, before + chunk)
            == if MaxLiteral(rules) > 1 then Last(TailOf(rules, before) + chunk, MaxLiteral(rules) - 1) else []
  {
    var keep := if MaxLiteral(rules) > 1 then MaxLiteral(rules) - 1 else 0;
    TailMovesOn(before, chunk, keep);
    assert Last(before, 0) == [];
    forall r | r in rules
      ensures OccursIn(r.literal, before + chunk) <==>
              OccursIn(r.literal, before) || OccursIn(r.literal, TailOf(rules, before) + chunk)
    {
      WindowSuffices(r.literal, before, chunk, keep);
    }
    hide OccursIn;
  }

  lemma NothingInEmpty(rules: seq<Rule>)
    requires forall r :: r in rules ==> r.literal != []
    ensures Matching(rules, []) == {}
  {
  }

  // ---------- the loops ----------

  method Contains(literal: Bytes, window: Bytes) returns (found: bool)
    ensures found <==> OccursIn(literal, window)
  {
    for i := 0 to |window| + 1
      invariant forall j :: 0 <= j < i ==> !OccursAt(literal, window, j)
    {
      if i + |literal| <= |window| && window[i..i + |literal|] == literal {
        assert OccursAt(literal, window, i);
        return true;
      }
    }
    return false;
  }

  /** One window: each rule not yet matched is searched for. */
  method MatchWindow(rules: seq<Rule>, window: Bytes, matches: set<string>) returns (more: set<string>)
    ensures more == matches + Matching(rules, window)
  {
    more := matches;
    for k := 0 to |rules|
      invariant more == matches + Matching(rules[..k], window)
    {
      MatchingOneMore(rules[..k], rules[k], window);
      assert rules[..k + 1] == rules[..k] + [rules[k]];
      if rules[k].id !in more {
        var found := Contains(rules[k].literal, window);
        if found {
          more := more + {rules[k].id};
        }
      }
    }
    assert rules[..|rules|] == rules;
  }

  lemma MatchingOneMore(rules: seq<Rule>, r: Rule, window: Bytes)
    ensures Matching(rules + [r], window)
            == Matching(rules, window) + if OccursIn(r.literal, window) then {r.id} else {}
  {
  }

  /** Search one window, then keep its last bytes: the body both loops share. */
  method Feed(rules: seq<Rule>, maximum: nat, ghost before: Bytes, tail: Bytes, matches: set<string>, chunk: Bytes)
    returns (tail': Bytes, matches': set<string>)
    requires forall r :: r in rules ==> r.literal != []
    requires maximum == MaxLiteral(rules) && matches == Matching(rules, before) && tail == TailOf(rules, before)
    ensures matches' == Matching(rules, before + chunk) && tail' == TailOf(rules, before + chunk)
  {
    WindowStep(rules, before, chunk);
    hide Matching;
    hide MaxLiteral;
    var window := tail + chunk;
    matches' := MatchWindow(rules, window, matches);
    tail' := tail;
    if maximum > 1 {
      tail' := Last(window, maximum - 1);
    }
  }

  datatype ScanError = SizePolicy | StreamEnded | BadFrame | Grew

  /** `sha` is the digest of the received bytes; digests are those of an arbitrary function. */
  datatype StreamResult<D> =
    | Scanned(sha: D, bytesRead: nat, ids: set<string>, inspection: Bytes)
    | Failed(error: ScanError)

  /** How many frames make up a stream of the declared size, or why they do not. */
  function Consume(frames: seq<Bytes>, size: int, chunkBytes: nat): (r: (nat, Option<ScanError>))
    ensures r.0 <= |frames|
  {
    if size <= 0 then (0, None)
    else if frames == [] || |frames[0]| > chunkBytes then (0, Some(StreamEnded))
    else if frames[0] == [] then (0, Some(BadFrame))
    else if |frames[0]| > size then (0, Some(Grew))
    else
      var r := Consume(frames[1..], size - |frames[0]|, chunkBytes);
      (r.0 + 1, r.1)
  }

  /** What scanning a stream of frames must return, said without chunks or windows. */
  ghost function Expected<D>(frames: seq<Bytes>, size: int, rules: seq<Rule>, chunkBytes: nat, maxFileBytes: nat,
                             digest: Bytes -> D): StreamResult<D>
  {
    if size > maxFileBytes then Failed(SizePolicy)
    else
      var (n, error) := Consume(frames, size, chunkBytes);
      if error.Some? then Failed(error.value)
      else
        var content := Flatten(frames[..n]);
        Scanned(digest(content), |content|, Matching(rules, content), Prefix(content, MAX_INSPECTION_BYTES))
  }

  lemma {:induction false} FlattenGrows(frames: seq<Bytes>, n: nat)
    requires n < |frames|
    ensures Flatten(frames[..n + 1]) == Flatten(frames[..n]) + frames[n]
  {
    assert frames[..n + 1][..n] == frames[..n];
  }

  /** Reading `next` frames of `read` bytes in all is how the stream begins. */
  ghost predicate Begins(frames: seq<Bytes>, size: int, chunkBytes: nat, next: nat, read: nat) {
    && next <= |frames| && read == |Flatten(frames[..next])|
    && Consume(frames, size, chunkBytes).1 == Consume(frames[next..], size - read, chunkBytes).1
    && Consume(frames, size, chunkBytes).0 == next + Consume(frames[next..], size - read, chunkBytes).0
  }

  lemma BeginsNowhere(frames: seq<Bytes>, size: int, chunkBytes: nat)
    ensures Begins(frames, size, chunkBytes, 0, 0) && Flatten(frames[..0]) == []
  {
  }

  lemma BeginsFurther(frames: seq<Bytes>, size: int, chunkBytes: nat, next: nat, read: nat)
    requires Begins(frames, size, chunkBytes, next, read) && next < |frames| && read < size
    requires 1 <= |frames[next]| <= chunkBytes && read + |frames[next]| <= size
    ensures Begins(frames, size, chunkBytes, next + 1, read + |frames[next]|)
    ensures Flatten(frames[..next + 1]) == Flatten(frames[..next]) + frames[next]
  {
    FlattenGrows(frames, next);
    assert frames[next..][1..] == frames[next + 1..];
  }

  lemma PrefixGrows(s: Bytes, t: Bytes, n: nat)
    ensures Prefix(s + t, n) ==
            if |Prefix(s, n)| < n then Prefix(s, n) + Prefix(t, n - |Prefix(s, n)|) else Prefix(s, n)
  {
  }

  /** The worker's streaming loop over the frames of its connection. */
  method ScanStream<D>(frames: seq<Bytes>, size: int, rules: seq<Rule>, chunkBytes: nat, maxFileBytes: nat,
                       digest: Bytes -> D) returns (r: StreamResult<D>)
    requires forall r :: r in rules ==> r.literal != []
    ensures r == Expected(frames, size, rules, chunkBytes, maxFileBytes, digest)
  {
    if size > maxFileBytes {
      return Failed(SizePolicy);
    }
    var hashed: Bytes := [];
    var matches: set<string> := {};
    var maximum := MaxLiteral(rules);
    var tail: Bytes := [];
    var inspection: Bytes := [];
    var bytesRead := 0;
    ghost var next := 0;
    var rest := frames;
    NothingInEmpty(rules);
    BeginsNowhere(frames, size, chunkBytes);
    hide Matching;
    hide MaxLiteral;
    hide Flatten;
    hide TailOf;
    while bytesRead < size
      invariant 0 <= bytesRead == |hashed|
      invariant Begins(frames, size, chunkBytes, next, bytesRead) && rest == frames[next..]
      invariant hashed == Flatten(frames[..next])
      invariant matches == Matching(rules, hashed) && tail == TailOf(rules, hashed)
      invariant inspection == Prefix(hashed, MAX_INSPECTION_BYTES)
      decreases |rest|
    {
      if rest == [] || |rest[0]| > chunkBytes {
        return Failed(StreamEnded);
      }
      var chunk := rest[0];
      if chunk == [] {
        return Failed(BadFrame);
      }
      if bytesRead + |chunk| > size || bytesRead + |chunk| > maxFileBytes {
        return Failed(Grew);
      }
      BeginsFurther(frames, size, chunkBytes, next, bytesRead);
      hide *;
      PrefixGrows(hashed, chunk, MAX_INSPECTION_BYTES);
      if |inspection| < MAX_INSPECTION_BYTES {
        inspection := inspection + Prefix(chunk, MAX_INSPECTION_BYTES - |inspection|);
      }
      tail, matches := Feed(rules, maximum, hashed, tail, matches, chunk);
      bytesRead := bytesRead + |chunk|;
      hashed := hashed + chunk;
      next := next + 1;
      rest := rest[1..];
    }
    return Scanned(digest(hashed), bytesRead, matches, inspection);
  }

  datatype FileResult<D> = Read(sha: D, bytesRead: nat, ids: set<string>) | TooLarge

  /** The scanner's in-process loop over the chunks read before end of file. */
  method ScanInProcess<D>(chunks: seq<Bytes>, rules: seq<Rule>, maxFileBytes: nat, digest: Bytes -> D)
    returns (r: FileResult<D>)
    requires forall c :: c in chunks ==> c != []
    requires forall r :: r in rules ==> r.literal != []
    ensures r.TooLarge? <==> |Flatten(chunks)| > maxFileBytes
    ensures r.Read? ==> r == Read(digest(Flatten(chunks)), |Flatten(chunks)|, Matching(rules, Flatten(chunks)))
  {
    var hashed: Bytes := [];
    var matches: set<string> := {};
    var maximum := MaxLiteral(rules);
    var tail: Bytes := [];
    NothingInEmpty(rules);
    hide Matching;
    hide MaxLiteral;
    for k := 0 to |chunks|
      invariant hashed == Flatten(chunks[..k]) && |hashed| <= maxFileBytes
      invariant matches == Matching(rules, hashed) && tail == TailOf(rules, hashed)
    {
      FlattenGrows(chunks, k);
      if |hashed| + |chunks[k]| > maxFileBytes {
        FlattenLonger(chunks, k + 1);
        return TooLarge;
      }
      tail, matches := Feed(rules, maximum, hashed, tail, matches, chunks[k]);
      hashed := hashed + chunks[k];
    }
    assert chunks[..|chunks|] == chunks;
    return Read(digest(hashed), |hashed|, matches);
  }

  lemma {:induction false} FlattenLonger(chunks: seq<Bytes>, k: nat)
    requires k <= |chunks|
    ensures |Flatten(chunks[..k])| <= |Flatten(chunks)|
    decreases |chunks| - k
  {
    if k == |chunks| {
      assert chunks[..k] == chunks;
    } else {
      FlattenGrows(chunks, k);
      FlattenLonger(chunks, k + 1);
    }
  }

  /** A stream that splits a content into non-empty frames within the chunk limit is accepted in
      full, so worker and in-process scan find the same rules: those of the whole content. */
  lemma {:induction false} AnySplitIsAccepted(chunks: seq<Bytes>, more: seq<Bytes>, chunkBytes: nat)
    requires forall c :: c in chunks ==> 1 <= |c| <= chunkBytes
    ensures Consume(chunks + more, |Flatten(chunks)|, chunkBytes) == (|chunks|, None)
  {
    if chunks != [] {
      var rest := chunks[1..];
      FlattenHead(chunks);
      assert (chunks + more)[1..] == rest + more;
      AnySplitIsAccepted(rest, more, chunkBytes);
    }
  }

  lemma {:induction false} FlattenHead(chunks: seq<Bytes>)
    requires chunks != []
    ensures Flatten(chunks) == chunks[0] + Flatten(chunks[1..])
  {
    if |chunks| > 1 {
      var front := chunks[..|chunks| - 1];
      FlattenHead(front);
      assert front[1..] == chunks[1..][..|chunks[1..]| - 1];
      assert chunks[1..][|chunks[1..]| - 1] == chunks[|chunks| - 1];
    } else {
      assert Flatten(chunks[..0]) == [];
      assert Flatten(chunks[1..]) == [];
    }
  }

  /** A literal occurs where the content is something, the literal, and something. */
  lemma OccursMeans(literal: Bytes, content: Bytes)
    ensures OccursIn(literal, content) <==> exists a, b :: content == a + literal + b
  {
    if OccursIn(literal, content) {
      var i :| OccursAt(literal, content, i);
      assert content == content[..i] + literal + content[i + |literal|..];
    }
    if exists a, b :: content == a + literal + b {
      var a, b :| content == a + literal + b;
      assert OccursAt(literal, content, |a|);
    }
  }

  /** The first `n` frames are non-empty, within the chunk limit, and make up the declared size. */
  ghost predicate MakesUp(frames: seq<Bytes>, n: nat, size: int, chunkBytes: nat) {
    && n <= |frames| && (forall i :: 0 <= i < n ==> 1 <= |frames[i]| && |frames[i]| <= chunkBytes)
    && |Flatten(frames[..n])| == if size < 0 then 0 else size
  }

  lemma {:induction false} MadeUp(frames: seq<Bytes>, size: int, chunkBytes: nat)
    ensures Consume(frames, size, chunkBytes).1.None? ==>
              MakesUp(frames, Consume(frames, size, chunkBytes).0, size, chunkBytes)
    decreases |frames|
  {
    var r := Consume(frames, size, chunkBytes);
    if r.1.None? && size > 0 {
      MadeUp(frames[1..], size - |frames[0]|, chunkBytes);
      FlattenHead(frames[..r.0]);
      assert frames[..r.0][1..] == frames[1..][..r.0 - 1];
    }
  }

  lemma OnlySplit(frames: seq<Bytes>, n: nat, size: int, chunkBytes: nat)
    requires MakesUp(frames, n, size, chunkBytes)
    ensures Consume(frames, size, chunkBytes) == (n, None)
  {
    assert frames == frames[..n] + frames[n..];
    AnySplitIsAccepted(frames[..n], frames[n..], chunkBytes);
  }

  /** What the scan of a stream returns, without chunks, windows or buffers: it succeeds exactly if the
      declared size is within policy and some first frames make it up, and then it has read just these,
      found the rules whose literal is in them, and passed their first 16 MiB on for inspection. */
  lemma ScanIsExact<D>(frames: seq<Bytes>, size: int, rules: seq<Rule>, chunkBytes: nat, maxFileBytes: nat,
                       digest: Bytes -> D)
    ensures var r := Expected(frames, size, rules, chunkBytes, maxFileBytes, digest);
            && (r.Scanned? <==> size <= maxFileBytes && exists n: nat :: MakesUp(frames, n, size, chunkBytes))
            && (r == Failed(SizePolicy) <==> size > maxFileBytes)
            && forall n: nat :: r.Scanned? && MakesUp(frames, n, size, chunkBytes) ==>
                 var content := Flatten(frames[..n]);
                 && r.sha == digest(content) && r.bytesRead == |content|
                 && (forall id :: id in r.ids <==> exists rule :: rule in rules && rule.id == id
                                                                  && OccursIn(rule.literal, content))
                 && r.inspection <= content
                 && |r.inspection| == if |content| < 16 * 1024 * 1024 then |content| else 16 * 1024 * 1024
  {
    MadeUp(frames, size, chunkBytes);
    NeverSizePolicy(frames, size, chunkBytes);
    forall n: nat | MakesUp(frames, n, size, chunkBytes)
      ensures Consume(frames, size, chunkBytes) == (n, None)
    {
      OnlySplit(frames, n, size, chunkBytes);
    }
    hide MakesUp;
    hide Consume;
    hide OccursIn;
  }

  lemma {:induction false} NeverSizePolicy(frames: seq<Bytes>, size: int, chunkBytes: nat)
    ensures Consume(frames, size, chunkBytes).1 != Some(SizePolicy)
    decreases |frames|
  {
    if size > 0 && frames != [] && 1 <= |frames[0]| <= chunkBytes && |frames[0]| <= size {
      NeverSizePolicy(frames[1..], size - |frames[0]|, chunkBytes);
    }
  }

  /** Which error a stream ends with is decided by the first frame that does not fit, or by its absence. */
  lemma {:induction false} FailsAtTheFirst(frames: seq<Bytes>, k: nat, size: int, chunkBytes: nat)
    requires k <= |frames| && (forall i :: 0 <= i < k ==> 1 <= |frames[i]| <= chunkBytes)
    requires |Flatten(frames[..k])| < size
    ensures k == |frames| || |frames[k]| > chunkBytes ==> Consume(frames, size, chunkBytes).1 == Some(StreamEnded)
    ensures k < |frames| && frames[k] == [] ==> Consume(frames, size, chunkBytes).1 == Some(BadFrame)
    ensures k < |frames| && |Flatten(frames[..k])| + |frames[k]| > size && |frames[k]| <= chunkBytes ==>
              Consume(frames, size, chunkBytes).1 == Some(Grew)
    decreases k
  {
    if k > 0 {
      FlattenHead(frames[..k]);
      assert frames[..k][1..] == frames[1..][..k - 1];
      FailsAtTheFirst(frames[1..], k - 1, size - |frames[0]|, chunkBytes);
    }
  }

  /** For every content and every split of it, the loops return the rules of the content itself. */
  lemma LoopsAgree<D>(content: Bytes, chunks: seq<Bytes>, rules: seq<Rule>, chunkBytes: nat, maxFileBytes: nat,
                      digest: Bytes -> D)
    requires Flatten(chunks) == content && |content| <= maxFileBytes
    requires forall c :: c in chunks ==> 1 <= |c| <= chunkBytes
    ensures Expected(chunks, |content|, rules, chunkBytes, maxFileBytes, digest)
            == Scanned(digest(content), |content|, Matching(rules, content), Prefix(content, MAX_INSPECTION_BYTES))
  {
    AnySplitIsAccepted(chunks, [], chunkBytes);
    assert chunks + [] == chunks && chunks[..|chunks|] == chunks;
    hide Matching;
  }
}
