/** The advisory catalog: merging per-source lists, and the validator that takes them apart again. */
module Catalog {
  import opened Orders
  import opened Paths

  /** `semantic` stands for every field but provenance and commitment, which are `provenance`. */
  datatype Advisory = Advisory(id: string, sourceId: string, publishedAt: int, semantic: string, provenance: string)

  /** Digests of arbitrary functions: equal inputs have equal digests, nothing more is used. */
  datatype Hashes = Hashes(contribution: seq<Advisory> -> int, semantic: seq<string> -> int)

  datatype Source = Source(sourceId: string, version: int, contribution: int, semantic: int, count: nat)

  datatype SourceResult = SourceResult(source: Source, advisories: seq<Advisory>)

  datatype Document = Document(sources: seq<Source>, advisories: seq<Advisory>)

  datatype CatalogError = NoSources | DuplicateSource | BadCount | DuplicateAdvisory | UnknownSource
                        | CountMismatch | ContributionMismatch | SemanticMismatch

  datatype Outcome = Catalogued(document: Document) | Rejected(error: CatalogError)

  const MAX_ADVISORIES: nat := 4096

  function Semantics(advisories: seq<Advisory>): seq<string> {
    seq(|advisories|, i requires 0 <= i < |advisories| => advisories[i].semantic)
  }

  /** `_source_summary` */
  function Summary(h: Hashes, sourceId: string, version: int, advisories: seq<Advisory>): Source {
    Source(sourceId, version, h.contribution(advisories), h.semantic(Semantics(advisories)), |advisories|)
  }

  // ---------- orders ----------

  // `le` is the order of text; the orders below compare by the keys the code sorts on.

  function ById(le: (string, string) -> bool): (Advisory, Advisory) -> bool {
    (a: Advisory, b: Advisory) => le(a.id, b.id)
  }

  function BySource(le: (string, string) -> bool): (SourceResult, SourceResult) -> bool {
    (a: SourceResult, b: SourceResult) => le(a.source.sourceId, b.source.sourceId)
  }

  /** `(published_at, source_id, id)` in reverse. */
  function NewestFirst(le: (string, string) -> bool): (Advisory, Advisory) -> bool {
    (a: Advisory, b: Advisory) =>
      a.publishedAt > b.publishedAt
      || (a.publishedAt == b.publishedAt
          && (if a.sourceId == b.sourceId then le(b.id, a.id) else le(b.sourceId, a.sourceId)))
  }

  lemma ByIdIsOrder(le: (string, string) -> bool)
    requires TotalOrder(le)
    ensures TotalPreorder(ById(le))
  {
    var order := ById(le);
    forall a, b ensures order(a, b) || order(b, a) {
      assert le(a.id, b.id) || le(b.id, a.id);
    }
    forall a, b, c | order(a, b) && order(b, c) ensures order(a, c) {
      assert le(a.id, b.id) && le(b.id, c.id);
    }
  }

  // ---------- merging ----------

  function Merge(results: seq<SourceResult>): seq<Advisory> {
    if results == [] then [] else Merge(results[..|results| - 1]) + results[|results| - 1].advisories
  }

  function Sources(results: seq<SourceResult>): seq<Source> {
    seq(|results|, i requires 0 <= i < |results| => results[i].source)
  }

  predicate DistinctIds(advisories: seq<Advisory>) {
    forall i, j :: 0 <= i < j < |advisories| ==> advisories[i].id != advisories[j].id
  }

  predicate DistinctSources(sources: seq<Source>) {
    forall i, j :: 0 <= i < j < |sources| ==> sources[i].sourceId != sources[j].sourceId
  }

  /** The merged document, before it is validated. */
  function Assemble(le: (string, string) -> bool, results: seq<SourceResult>): Document {
    var normalized := Sort(BySource(le), results);
    Document(Sources(normalized), Sort(NewestFirst(le), Merge(normalized)))
  }

  method BuildCatalog(h: Hashes, le: (string, string) -> bool, results: seq<SourceResult>) returns (r: Outcome)
    ensures var d := Assemble(le, results);
            r == if results == [] then Rejected(NoSources)
                 else if !DistinctSources(d.sources) then Rejected(DuplicateSource)
                 else if d.advisories == [] || |d.advisories| > MAX_ADVISORIES then Rejected(BadCount)
                 else Validate(h, le, d)
  {
    var normalized := Sort(BySource(le), results);
    if normalized == [] {
      assert |multiset(results)| == 0;
      return Rejected(NoSources);
    }
    assert results != [] by { assert normalized[0] in multiset(results); }
    var sources := Sources(normalized);
    if !DistinctSources(sources) {
      return Rejected(DuplicateSource);
    }
    var advisories := [];
    for i := 0 to |normalized|
      invariant advisories == Merge(normalized[..i])
    {
      assert normalized[..i + 1][..i] == normalized[..i];
      advisories := advisories + normalized[i].advisories;
    }
    assert normalized[..|normalized|] == normalized;
    advisories := Sort(NewestFirst(le), advisories);
    if advisories == [] || |advisories| > MAX_ADVISORIES {
      return Rejected(BadCount);
    }
    r := ValidateCatalog(h, le, Document(sources, advisories));
  }

  // ---------- validating ----------

  function OfSource(sourceId: string, advisories: seq<Advisory>): seq<Advisory> {
    if advisories == [] then []
    else
      var front, last := OfSource(sourceId, advisories[..|advisories| - 1]), advisories[|advisories| - 1];
      if last.sourceId == sourceId then front + [last] else front
  }

  predicate Known(sources: seq<Source>, sourceId: string) {
    exists s :: s in sources && s.sourceId == sourceId
  }

  /** What the validator finds wrong with one source, if anything. */
  function Mismatch(h: Hashes, le: (string, string) -> bool, s: Source, advisories: seq<Advisory>): Option<CatalogError>
  {
    var mine := OfSource(s.sourceId, advisories);
    var ordered := Sort(ById(le), mine);
    if |mine| != s.count then Some(CountMismatch)
    else if h.contribution(ordered) != s.contribution then Some(ContributionMismatch)
    else if h.semantic(Semantics(ordered)) != s.semantic then Some(SemanticMismatch)
    else None
  }

  function FirstMismatch(h: Hashes, le: (string, string) -> bool, sources: seq<Source>, advisories: seq<Advisory>)
    : Option<CatalogError>
  {
    if sources == [] then None
    else
      var m := FirstMismatch(h, le, sources[..|sources| - 1], advisories);
      if m.Some? then m else Mismatch(h, le, sources[|sources| - 1], advisories)
  }

  function Ids(advisories: seq<Advisory>): set<string> {
    set a | a in advisories :: a.id
  }

  /** The first advisory whose id was used before or whose source is not listed. */
  function FirstBad(sources: seq<Source>, advisories: seq<Advisory>): Option<CatalogError> {
    if advisories == [] then None
    else
      var front, a := advisories[..|advisories| - 1], advisories[|advisories| - 1];
      var b := FirstBad(sources, front);
      if b.Some? then b
      else if a.id in Ids(front) then Some(DuplicateAdvisory)
      else if !Known(sources, a.sourceId) then Some(UnknownSource)
      else None
  }

  function Validate(h: Hashes, le: (string, string) -> bool, d: Document): Outcome {
    if d.sources == [] then Rejected(NoSources)
    else if d.advisories == [] || |d.advisories| > MAX_ADVISORIES then Rejected(BadCount)
    else if !DistinctSources(d.sources) then Rejected(DuplicateSource)
    else
      var b := FirstBad(d.sources, d.advisories);
      if b.Some? then Rejected(b.value)
      else
        var m := FirstMismatch(h, le, d.sources, d.advisories);
        if m.Some? then Rejected(m.value) else Catalogued(d)
  }

  /** The validator collects the advisories of each source in one pass, then checks each source. */
  method ValidateCatalog(h: Hashes, le: (string, string) -> bool, d: Document) returns (r: Outcome)
    ensures r == Validate(h, le, d)
  {
    if d.sources == [] { return Rejected(NoSources); }
    if d.advisories == [] || |d.advisories| > MAX_ADVISORIES { return Rejected(BadCount); }
    if !DistinctSources(d.sources) { return Rejected(DuplicateSource); }
    var bad, contributions := CollectContributions(d.sources, d.advisories);
    if bad.Some? {
      return Rejected(bad.value);
    }
    r := CheckSources(h, le, d, contributions);
  }

  /** The pass over the advisories: refuse a repeated id or an unlisted source, else sort them out. */
  method CollectContributions(sources: seq<Source>, advisories: seq<Advisory>)
    returns (bad: Option<CatalogError>, contributions: map<string, seq<Advisory>>)
    ensures bad == FirstBad(sources, advisories)
    ensures forall s :: s in sources ==> s.sourceId in contributions
    ensures bad.None? ==> forall x :: x in contributions ==> contributions[x] == OfSource(x, advisories)
  {
    var identifiers: set<string> := {};
    contributions := map s | s in sources :: s.sourceId := [];
    assert advisories[..0] == [];
    NothingYet(sources);
    hide *;
    for i := 0 to |advisories|
      invariant SortedOut(sources, advisories[..i], identifiers, contributions)
    {
      var a := advisories[i];
      assert advisories[..i + 1] == advisories[..i] + [a];
      OneMoreRead(sources, advisories[..i], a, identifiers, contributions);
      if a.id in identifiers || a.sourceId !in contributions {
        bad := Some(if a.id in identifiers then DuplicateAdvisory else UnknownSource);
        FirstBadStays(sources, advisories, i + 1);
        ReadKeys(sources, advisories[..i], identifiers, contributions);
        return;
      }
      identifiers := identifiers + {a.id};
      contributions := contributions[a.sourceId := contributions[a.sourceId] + [a]];
    }
    assert advisories[..|advisories|] == advisories;
    ReadKeys(sources, advisories, identifiers, contributions);
    bad := None;
  }

  /** Every listed source, and no other, has its list of the advisories read so far. */
  ghost predicate Collected(sources: seq<Source>, front: seq<Advisory>, contributions: map<string, seq<Advisory>>) {
    && (forall x :: x in contributions <==> Known(sources, x))
    && (forall x :: x in contributions ==> contributions[x] == OfSource(x, front))
  }

  ghost predicate SortedOut(sources: seq<Source>, front: seq<Advisory>, identifiers: set<string>,
                            contributions: map<string, seq<Advisory>>)
  {
    FirstBad(sources, front) == None && identifiers == Ids(front) && Collected(sources, front, contributions)
  }

  lemma ReadKeys(sources: seq<Source>, front: seq<Advisory>, identifiers: set<string>,
                 contributions: map<string, seq<Advisory>>)
    requires SortedOut(sources, front, identifiers, contributions)
    ensures FirstBad(sources, front) == None
    ensures forall s :: s in sources ==> s.sourceId in contributions
    ensures forall x :: x in contributions ==> contributions[x] == OfSource(x, front)
  {
  }

  lemma OneMoreRead(sources: seq<Source>, front: seq<Advisory>, a: Advisory, identifiers: set<string>,
                    contributions: map<string, seq<Advisory>>)
    requires SortedOut(sources, front, identifiers, contributions)
    ensures a.id in identifiers ==> FirstBad(sources, front + [a]) == Some(DuplicateAdvisory)
    ensures a.id !in identifiers && a.sourceId !in contributions ==>
              FirstBad(sources, front + [a]) == Some(UnknownSource)
    ensures a.id !in identifiers && a.sourceId in contributions ==>
              SortedOut(sources, front + [a], identifiers + {a.id},
                        contributions[a.sourceId := contributions[a.sourceId] + [a]])
  {
    assert a.sourceId in contributions <==> Known(sources, a.sourceId);
    hide FirstBad;
    hide Known;
    hide Collected;
    assert Ids(front + [a]) == Ids(front) + {a.id};
    hide Ids;
    FirstBadNext(sources, front, a);
    if a.sourceId in contributions { CollectedNext(sources, front, a, contributions); }
  }

  lemma CollectedNext(sources: seq<Source>, front: seq<Advisory>, a: Advisory,
                      contributions: map<string, seq<Advisory>>)
    requires Collected(sources, front, contributions) && a.sourceId in contributions
    ensures Collected(sources, front + [a], contributions[a.sourceId := contributions[a.sourceId] + [a]])
  {
    OneMoreAdvisory(front, a);
    hide OfSource;
    hide Known;
  }

  lemma NothingYet(sources: seq<Source>)
    ensures SortedOut(sources, [], {}, map s | s in sources :: s.sourceId := [])
  {
  }

  lemma FirstBadNext(sources: seq<Source>, front: seq<Advisory>, a: Advisory)
    requires FirstBad(sources, front) == None
    ensures FirstBad(sources, front + [a]) ==
            if a.id in Ids(front) then Some(DuplicateAdvisory)
            else if !Known(sources, a.sourceId) then Some(UnknownSource) else None
  {
  }

  lemma OneMoreAdvisory(advisories: seq<Advisory>, a: Advisory)
    ensures Ids(advisories + [a]) == Ids(advisories) + {a.id}
    ensures forall x :: OfSource(x, advisories + [a]) ==
                        if x == a.sourceId then OfSource(x, advisories) + [a] else OfSource(x, advisories)
  {
  }

  method CheckSources(h: Hashes, le: (string, string) -> bool, d: Document, contributions: map<string, seq<Advisory>>)
    returns (r: Outcome)
    requires forall s :: s in d.sources ==> s.sourceId in contributions
    requires forall x :: x in contributions ==> contributions[x] == OfSource(x, d.advisories)
    ensures var m := FirstMismatch(h, le, d.sources, d.advisories);
            r == if m.Some? then Rejected(m.value) else Catalogued(d)
  {
    hide *;
    NothingChecked(h, le, d);
    for i := 0 to |d.sources|
      invariant FirstMismatch(h, le, d.sources[..i], d.advisories) == None
    {
      var s := d.sources[i];
      var mine := contributions[s.sourceId];
      MismatchNext(h, le, d, i, mine);
      if |mine| != s.count { return Rejected(CountMismatch); }
      var ordered := Sort(ById(le), mine);
      if h.contribution(ordered) != s.contribution { return Rejected(ContributionMismatch); }
      if h.semantic(Semantics(ordered)) != s.semantic { return Rejected(SemanticMismatch); }
    }
    assert d.sources[..|d.sources|] == d.sources;
    return Catalogued(d);
  }

  lemma NothingChecked(h: Hashes, le: (string, string) -> bool, d: Document)
    ensures FirstMismatch(h, le, d.sources[..0], d.advisories) == None
  {
  }

  /** What the loop finds at one source is the verdict so far, and a problem is the verdict. */
  lemma MismatchNext(h: Hashes, le: (string, string) -> bool, d: Document, i: nat, mine: seq<Advisory>)
    requires i < |d.sources| && FirstMismatch(h, le, d.sources[..i], d.advisories) == None
    requires mine == OfSource(d.sources[i].sourceId, d.advisories)
    ensures var s, ordered := d.sources[i], Sort(ById(le), mine);
            var found :=
              if |mine| != s.count then Some(CountMismatch)
              else if h.contribution(ordered) != s.contribution then Some(ContributionMismatch)
              else if h.semantic(Semantics(ordered)) != s.semantic then Some(SemanticMismatch)
              else None;
            && FirstMismatch(h, le, d.sources[..i + 1], d.advisories) == found
            && (found.Some? ==> FirstMismatch(h, le, d.sources, d.advisories) == found)
  {
    hide *;
    assert d.sources[..i + 1][..i] == d.sources[..i];
    FirstMismatchStays(h, le, d.sources, d.advisories, i + 1);
    FirstMismatchNext(h, le, d.sources[..i + 1], d.advisories);
    MismatchIs(h, le, d.sources[i], d.advisories, mine);
  }

  lemma FirstMismatchNext(h: Hashes, le: (string, string) -> bool, sources: seq<Source>, advisories: seq<Advisory>)
    requires sources != [] && FirstMismatch(h, le, sources[..|sources| - 1], advisories) == None
    ensures FirstMismatch(h, le, sources, advisories) == Mismatch(h, le, sources[|sources| - 1], advisories)
  {
    hide Mismatch;
  }

  lemma MismatchIs(h: Hashes, le: (string, string) -> bool, s: Source, advisories: seq<Advisory>, mine: seq<Advisory>)
    requires mine == OfSource(s.sourceId, advisories)
    ensures var ordered := Sort(ById(le), mine);
            Mismatch(h, le, s, advisories) ==
            if |mine| != s.count then Some(CountMismatch)
            else if h.contribution(ordered) != s.contribution then Some(ContributionMismatch)
            else if h.semantic(Semantics(ordered)) != s.semantic then Some(SemanticMismatch)
            else None
  {
    hide Sort;
    hide OfSource;
    hide Semantics;
    hide ById;
  }

  lemma {:induction false} FirstBadStays(sources: seq<Source>, advisories: seq<Advisory>, k: nat)
    requires k <= |advisories| && FirstBad(sources, advisories[..k]).Some?
    ensures FirstBad(sources, advisories) == FirstBad(sources, advisories[..k])
    decreases |advisories| - k
  {
    if k < |advisories| {
      assert advisories[..k + 1][..k] == advisories[..k];
      FirstBadStays(sources, advisories, k + 1);
    } else {
      assert advisories[..k] == advisories;
    }
  }

  lemma {:induction false} FirstMismatchStays(h: Hashes, le: (string, string) -> bool, sources: seq<Source>,
                                              advisories: seq<Advisory>, k: nat)
    requires k <= |sources|
    ensures FirstMismatch(h, le, sources[..k], advisories).Some? ==>
              FirstMismatch(h, le, sources, advisories) == FirstMismatch(h, le, sources[..k], advisories)
    decreases |sources| - k
  {
    if k < |sources| {
      assert sources[..k + 1][..k] == sources[..k];
      FirstMismatchStays(h, le, sources, advisories, k + 1);
    } else {
      assert sources[..k] == sources;
    }
  }

  // ---------- regrouping recovers the sources ----------

  /** What the parsers deliver: each list belongs to its source, is sorted by id and is summarised. */
  ghost predicate Parsed(h: Hashes, le: (string, string) -> bool, r: SourceResult) {
    && r.source == Summary(h, r.source.sourceId, r.source.version, r.advisories)
    && Sorted(ById(le), r.advisories)
    && forall a :: a in r.advisories ==> a.sourceId == r.source.sourceId
  }

  ghost predicate AllParsed(h: Hashes, le: (string, string) -> bool, results: seq<SourceResult>) {
    forall r :: r in results ==> Parsed(h, le, r)
  }

  lemma {:induction false} OfSourceCounts(sourceId: string, advisories: seq<Advisory>, a: Advisory)
    ensures multiset(OfSource(sourceId, advisories))[a] == if a.sourceId == sourceId then multiset(advisories)[a] else 0
  {
    if advisories != [] {
      OfSourceCounts(sourceId, advisories[..|advisories| - 1], a);
      assert advisories == advisories[..|advisories| - 1] + [advisories[|advisories| - 1]];
    }
  }

  lemma OfSourcePermutes(sourceId: string, a: seq<Advisory>, b: seq<Advisory>)
    requires multiset(a) == multiset(b)
    ensures multiset(OfSource(sourceId, a)) == multiset(OfSource(sourceId, b))
  {
    forall x ensures multiset(OfSource(sourceId, a))[x] == multiset(OfSource(sourceId, b))[x] {
      OfSourceCounts(sourceId, a, x);
      OfSourceCounts(sourceId, b, x);
    }
  }

  lemma {:induction false} OfSourceInTurn(sourceId: string, a: seq<Advisory>, b: seq<Advisory>)
    ensures OfSource(sourceId, a + b) == OfSource(sourceId, a) + OfSource(sourceId, b)
  {
    if b == [] {
      assert a + b == a;
    } else {
      assert (a + b)[..|a + b| - 1] == a + b[..|b| - 1];
      OfSourceInTurn(sourceId, a, b[..|b| - 1]);
    }
  }

  lemma {:induction false} OfOneSource(sourceId: string, other: string, advisories: seq<Advisory>)
    requires forall a :: a in advisories ==> a.sourceId == other
    ensures OfSource(sourceId, advisories) == if sourceId == other then advisories else []
  {
    if advisories != [] {
      var front := advisories[..|advisories| - 1];
      assert advisories == front + [advisories[|advisories| - 1]];
      OfOneSource(sourceId, other, front);
    }
  }

  /** In the merged list, the advisories of a source are exactly its own list. */
  lemma {:induction false} MergeKeepsSource(h: Hashes, le: (string, string) -> bool, results: seq<SourceResult>,
                                            sourceId: string)
    requires AllParsed(h, le, results) && DistinctSources(Sources(results))
    ensures forall r :: r in results && r.source.sourceId == sourceId ==>
              OfSource(sourceId, Merge(results)) == r.advisories
    ensures (forall r :: r in results ==> r.source.sourceId != sourceId) ==> OfSource(sourceId, Merge(results)) == []
  {
    hide *;
    if results == [] {
      NothingMerged(sourceId);
    } else {
      var front, last := results[..|results| - 1], results[|results| - 1];
      assert results == front + [last];
      FrontIsDistinct(results);
      LastIsNew(results);
      LastIsParsed(h, le, results);
      MergeKeepsSource(h, le, front, sourceId);
      MergeNext(results);
      OfSourceInTurn(sourceId, Merge(front), last.advisories);
      OfOneSource(sourceId, last.source.sourceId, last.advisories);
    }
  }

  lemma NothingMerged(sourceId: string)
    ensures OfSource(sourceId, Merge([])) == []
  {
  }

  lemma MergeNext(results: seq<SourceResult>)
    requires results != []
    ensures Merge(results) == Merge(results[..|results| - 1]) + results[|results| - 1].advisories
  {
  }

  lemma FrontIsDistinct(results: seq<SourceResult>)
    requires results != [] && DistinctSources(Sources(results))
    ensures DistinctSources(Sources(results[..|results| - 1]))
  {
    var front := results[..|results| - 1];
    assert forall i :: 0 <= i < |front| ==> Sources(front)[i] == Sources(results)[i];
  }

  lemma LastIsParsed(h: Hashes, le: (string, string) -> bool, results: seq<SourceResult>)
    requires results != [] && AllParsed(h, le, results)
    ensures AllParsed(h, le, results[..|results| - 1])
    ensures forall a :: a in results[|results| - 1].advisories ==> a.sourceId == results[|results| - 1].source.sourceId
  {
    assert Parsed(h, le, results[|results| - 1]);
  }

  lemma LastIsNew(results: seq<SourceResult>)
    requires results != [] && DistinctSources(Sources(results))
    ensures forall r :: r in results[..|results| - 1] ==> r.source.sourceId != results[|results| - 1].source.sourceId
  {
    var front := results[..|results| - 1];
    forall r | r in front ensures r.source.sourceId != results[|results| - 1].source.sourceId {
      var i :| 0 <= i < |front| && front[i] == r;
      assert Sources(results)[i].sourceId != Sources(results)[|results| - 1].sourceId;
    }
  }

  lemma OfSourceInside(sourceId: string, advisories: seq<Advisory>, a: Advisory)
    requires a in OfSource(sourceId, advisories)
    ensures a in advisories && a.sourceId == sourceId
  {
  }

  lemma DistinctIdsSeparate(le: (string, string) -> bool, advisories: seq<Advisory>, some: seq<Advisory>)
    requires TotalOrder(le) && DistinctIds(advisories) && forall a :: a in some ==> a in advisories
    ensures Separates(ById(le), some)
  {
  }

  /** Regrouping: from any reordering of the merged list, filtering by source and sorting by id gives
      back each source's original list. */
  lemma RegroupingRecovers(h: Hashes, le: (string, string) -> bool, results: seq<SourceResult>,
                           reordered: seq<Advisory>, r: SourceResult)
    requires TotalOrder(le) && AllParsed(h, le, results) && DistinctSources(Sources(results))
    requires multiset(reordered) == multiset(Merge(results)) && DistinctIds(reordered)
    requires r in results
    ensures Sort(ById(le), OfSource(r.source.sourceId, reordered)) == r.advisories
    ensures |OfSource(r.source.sourceId, reordered)| == |r.advisories|
  {
    var mine := OfSource(r.source.sourceId, reordered);
    MergeKeepsSource(h, le, results, r.source.sourceId);
    OfSourcePermutes(r.source.sourceId, reordered, Merge(results));
    assert multiset(mine) == multiset(r.advisories);
    assert Parsed(h, le, r);
    ByIdIsOrder(le);
    forall a | a in r.advisories ensures a in reordered {
      assert a in multiset(mine);
      OfSourceInside(r.source.sourceId, reordered, a);
    }
    DistinctIdsSeparate(le, reordered, r.advisories);
    SortOfSorted(ById(le), r.advisories, mine);
    assert |multiset(mine)| == |mine| && |multiset(r.advisories)| == |r.advisories|;
  }

  lemma NoMismatch(h: Hashes, le: (string, string) -> bool, results: seq<SourceResult>, reordered: seq<Advisory>,
                   k: nat)
    requires TotalOrder(le) && AllParsed(h, le, results) && DistinctSources(Sources(results))
    requires multiset(reordered) == multiset(Merge(results)) && DistinctIds(reordered)
    requires k <= |results|
    ensures FirstMismatch(h, le, Sources(results)[..k], reordered) == None
  {
    if k > 0 {
      NoMismatch(h, le, results, reordered, k - 1);
      assert Sources(results)[..k][..k - 1] == Sources(results)[..k - 1];
      RegroupingRecovers(h, le, results, reordered, results[k - 1]);
      assert Parsed(h, le, results[k - 1]);
    }
  }

  lemma {:induction false} NoBadAdvisory(sources: seq<Source>, advisories: seq<Advisory>)
    requires DistinctIds(advisories) && forall a :: a in advisories ==> Known(sources, a.sourceId)
    ensures FirstBad(sources, advisories) == None
  {
    if advisories != [] {
      var front := advisories[..|advisories| - 1];
      assert advisories == front + [advisories[|advisories| - 1]];
      NoBadAdvisory(sources, front);
    }
  }

  lemma {:induction false} MergedIsKnown(h: Hashes, le: (string, string) -> bool, results: seq<SourceResult>,
                                         a: Advisory)
    requires AllParsed(h, le, results) && a in Merge(results)
    ensures Known(Sources(results), a.sourceId)
  {
    var front, last := results[..|results| - 1], results[|results| - 1];
    assert results == front + [last];
    if a in last.advisories {
      assert Parsed(h, le, last);
      assert Sources(results)[|results| - 1] == last.source;
    } else {
      MergedIsKnown(h, le, front, a);
      var s :| s in Sources(front) && s.sourceId == a.sourceId;
      var i :| 0 <= i < |front| && Sources(front)[i] == s;
      assert Sources(results)[i] == s;
    }
  }

  /** Every catalog built from parsed sources with globally distinct advisories validates. */
  lemma BuiltCatalogValidates(h: Hashes, le: (string, string) -> bool, results: seq<SourceResult>)
    requires TotalOrder(le) && AllParsed(h, le, results)
    requires var d := Assemble(le, results);
             DistinctSources(d.sources) && DistinctIds(d.advisories) && 1 <= |d.advisories| <= MAX_ADVISORIES
    ensures Validate(h, le, Assemble(le, results)) == Catalogued(Assemble(le, results))
  {
    var normalized := Sort(BySource(le), results);
    var d := Assemble(le, results);
    assert |d.sources| == |normalized| && d.sources[..|normalized|] == d.sources;
    hide *;
    PermutedIsParsed(h, le, results, normalized);
    AssembledFrom(le, results, normalized);
    forall a | a in d.advisories ensures Known(d.sources, a.sourceId) {
      InPermutation(d.advisories, Merge(normalized), a);
      MergedIsKnown(h, le, normalized, a);
    }
    NoBadAdvisory(d.sources, d.advisories);
    NoMismatch(h, le, normalized, d.advisories, |normalized|);
    KnownSources(d.sources, d.advisories[0].sourceId);
    ValidatesWhen(h, le, d);
  }

  lemma PermutedIsParsed(h: Hashes, le: (string, string) -> bool, a: seq<SourceResult>, b: seq<SourceResult>)
    requires AllParsed(h, le, a) && multiset(a) == multiset(b)
    ensures AllParsed(h, le, b)
  {
    hide Parsed;
    forall r | r in b ensures Parsed(h, le, r) {
      InPermutation(b, a, r);
    }
  }

  lemma InPermutation<T>(a: seq<T>, b: seq<T>, x: T)
    requires multiset(a) == multiset(b) && x in a
    ensures x in b
  {
    assert x in multiset(a);
  }

  lemma AssembledFrom(le: (string, string) -> bool, results: seq<SourceResult>, normalized: seq<SourceResult>)
    requires normalized == Sort(BySource(le), results)
    ensures var d := Assemble(le, results);
            d.sources == Sources(normalized) && multiset(d.advisories) == multiset(Merge(normalized))
  {
    hide Sort;
    hide Merge;
    hide Sources;
  }

  lemma KnownSources(sources: seq<Source>, sourceId: string)
    ensures Known(sources, sourceId) ==> sources != []
  {
  }

  lemma ValidatesWhen(h: Hashes, le: (string, string) -> bool, d: Document)
    requires d.sources != [] && 1 <= |d.advisories| <= MAX_ADVISORIES && DistinctSources(d.sources)
    requires FirstBad(d.sources, d.advisories) == None && FirstMismatch(h, le, d.sources, d.advisories) == None
    ensures Validate(h, le, d) == Catalogued(d)
  {
    hide FirstBad;
    hide FirstMismatch;
    hide DistinctSources;
  }

  // ---------- what a built catalog looks like ----------

  /** Newest first; of the same time by source, of the same source by id, both backwards. */
  ghost predicate Precedes(le: (string, string) -> bool, a: Advisory, b: Advisory) {
    && a.publishedAt >= b.publishedAt
    && (a.publishedAt == b.publishedAt ==> le(b.sourceId, a.sourceId))
    && (a.publishedAt == b.publishedAt && a.sourceId == b.sourceId ==> le(b.id, a.id))
  }

  /** The merged document holds each advisory of each source once, newest first, and the sources in the
      order of their ids. */
  lemma AssembledInOrder(le: (string, string) -> bool, results: seq<SourceResult>)
    requires TotalOrder(le)
    ensures var d := Assemble(le, results);
            && multiset(d.advisories) == multiset(Merge(results))
            && (forall i, j :: 0 <= i < j < |d.advisories| ==> Precedes(le, d.advisories[i], d.advisories[j]))
            && multiset(d.sources) == multiset(Sources(results))
            && (forall i, j :: 0 <= i < j < |d.sources| ==> le(d.sources[i].sourceId, d.sources[j].sourceId))
  {
    hide *;
    var normalized := Sort(BySource(le), results);
    BySourceIsOrder(le);
    SortSorts(BySource(le), results);
    NewestFirstIsOrder(le);
    SortSorts(NewestFirst(le), Merge(normalized));
    MergePermutes(normalized, results);
    SourcesPermute(normalized, results);
    SourcesInOrder(le, normalized);
    NewestInOrder(le, Sort(NewestFirst(le), Merge(normalized)));
    AssembledFrom(le, results, normalized);
    AssembledAdvisories(le, results, normalized);
  }

  lemma AssembledAdvisories(le: (string, string) -> bool, results: seq<SourceResult>, normalized: seq<SourceResult>)
    requires normalized == Sort(BySource(le), results)
    ensures Assemble(le, results).advisories == Sort(NewestFirst(le), Merge(normalized))
  {
    hide Sort;
    hide Merge;
    hide Sources;
  }

  lemma SourcesInOrder(le: (string, string) -> bool, results: seq<SourceResult>)
    requires Sorted(BySource(le), results)
    ensures forall i, j :: 0 <= i < j < |Sources(results)| ==>
              le(Sources(results)[i].sourceId, Sources(results)[j].sourceId)
  {
    forall i, j | 0 <= i < j < |results| ensures le(results[i].source.sourceId, results[j].source.sourceId) {
      assert BySource(le)(results[i], results[j]);
    }
  }

  lemma NewestInOrder(le: (string, string) -> bool, advisories: seq<Advisory>)
    requires TotalOrder(le) && Sorted(NewestFirst(le), advisories)
    ensures forall i, j :: 0 <= i < j < |advisories| ==> Precedes(le, advisories[i], advisories[j])
  {
    forall i, j | 0 <= i < j < |advisories| ensures Precedes(le, advisories[i], advisories[j]) {
      assert NewestFirst(le)(advisories[i], advisories[j]);
      assert le(advisories[i].sourceId, advisories[i].sourceId);
    }
  }

  lemma BySourceIsOrder(le: (string, string) -> bool)
    requires TotalOrder(le)
    ensures TotalPreorder(BySource(le))
  {
    var order := BySource(le);
    forall a, b ensures order(a, b) || order(b, a) {
      assert le(a.source.sourceId, b.source.sourceId) || le(b.source.sourceId, a.source.sourceId);
    }
    forall a, b, c | order(a, b) && order(b, c) ensures order(a, c) {
      assert le(a.source.sourceId, b.source.sourceId) && le(b.source.sourceId, c.source.sourceId);
    }
  }

  lemma NewestFirstIsOrder(le: (string, string) -> bool)
    requires TotalOrder(le)
    ensures TotalPreorder(NewestFirst(le))
  {
    var order := NewestFirst(le);
    forall a, b ensures order(a, b) || order(b, a) {
      assert le(a.id, b.id) || le(b.id, a.id);
      assert le(a.sourceId, b.sourceId) || le(b.sourceId, a.sourceId);
    }
    forall a, b, c | order(a, b) && order(b, c) ensures order(a, c) {
      NewestFirstTrans(le, a, b, c);
    }
  }

  lemma NewestFirstTrans(le: (string, string) -> bool, a: Advisory, b: Advisory, c: Advisory)
    requires TotalOrder(le) && NewestFirst(le)(a, b) && NewestFirst(le)(b, c)
    ensures NewestFirst(le)(a, c)
  {
    if a.publishedAt == b.publishedAt == c.publishedAt {
      assert le(b.sourceId, a.sourceId) && le(c.sourceId, b.sourceId) && le(c.sourceId, a.sourceId) by {
        assert le(a.sourceId, a.sourceId) && le(b.sourceId, b.sourceId);
      }
      if a.sourceId == c.sourceId {
        assert a.sourceId == b.sourceId;
        assert le(b.id, a.id) && le(c.id, b.id);
      }
    }
  }

  lemma {:induction false} MergeCounts(results: seq<SourceResult>, front: seq<SourceResult>, r: SourceResult,
                                       back: seq<SourceResult>)
    requires results == front + [r] + back
    ensures multiset(Merge(results)) == multiset(Merge(front + back)) + multiset(r.advisories)
    decreases |back|
  {
    if back == [] {
      assert results[..|results| - 1] == front && front + back == front;
    } else {
      var last := back[|back| - 1];
      assert results[..|results| - 1] == front + [r] + back[..|back| - 1];
      assert (front + back)[..|front + back| - 1] == front + back[..|back| - 1];
      MergeCounts(results[..|results| - 1], front, r, back[..|back| - 1]);
    }
  }

  lemma {:induction false} MergePermutes(a: seq<SourceResult>, b: seq<SourceResult>)
    requires multiset(a) == multiset(b)
    ensures multiset(Merge(a)) == multiset(Merge(b))
    decreases |a|
  {
    SameSize(a, b);
    if a != [] {
      var r := a[|a| - 1];
      var i := TakeOut(a, b);
      var front, back := b[..i], b[i + 1..];
      MergePermutes(a[..|a| - 1], front + back);
      MergeCounts(b, front, r, back);
    }
  }

  lemma {:induction false} SourcesPermute(a: seq<SourceResult>, b: seq<SourceResult>)
    requires multiset(a) == multiset(b)
    ensures multiset(Sources(a)) == multiset(Sources(b))
    decreases |a|
  {
    SameSize(a, b);
    if a == [] {
      assert Sources(a) == Sources(b);
    } else {
      var r := a[|a| - 1];
      var i := TakeOut(a, b);
      var front, back := b[..i], b[i + 1..];
      SourcesPermute(a[..|a| - 1], front + back);
      SourcesSplit(front, r, back);
      SourcesSplit(a[..|a| - 1], r, []);
      assert a == a[..|a| - 1] + [r] + [] && a[..|a| - 1] + [] == a[..|a| - 1];
    }
  }

  lemma SourcesSplit(front: seq<SourceResult>, r: SourceResult, back: seq<SourceResult>)
    ensures multiset(Sources(front + [r] + back)) == multiset(Sources(front + back)) + multiset{r.source}
  {
    assert Sources(front + [r] + back) == Sources(front) + [r.source] + Sources(back);
    assert Sources(front + back) == Sources(front) + Sources(back);
  }

  // ---------- what the validator accepts ----------

  /** The list is what the source contributes: its own advisories, as often as they occur, by ascending id. */
  ghost predicate Contributes(le: (string, string) -> bool, sourceId: string, advisories: seq<Advisory>,
                              mine: seq<Advisory>)
  {
    && (forall i, j :: 0 <= i < j < |mine| ==> le(mine[i].id, mine[j].id))
    && forall a :: multiset(mine)[a] == if a.sourceId == sourceId then multiset(advisories)[a] else 0
  }

  /** What is on record of a source agrees with what it contributes. */
  ghost predicate Agrees(h: Hashes, le: (string, string) -> bool, s: Source, advisories: seq<Advisory>) {
    exists mine: seq<Advisory>, texts: seq<string> ::
      && Contributes(le, s.sourceId, advisories, mine) && |texts| == |mine| == s.count
      && (forall i :: 0 <= i < |mine| ==> texts[i] == mine[i].semantic)
      && h.contribution(mine) == s.contribution && h.semantic(texts) == s.semantic
  }

  ghost predicate UniqueIds(advisories: seq<Advisory>) {
    forall a, b :: 0 <= a < |advisories| && 0 <= b < |advisories| && advisories[a].id == advisories[b].id ==> a == b
  }

  /** The validator accepts exactly the documents with at least one source, 1 to 4096 advisories, no source
      and no advisory listed twice, every advisory of a listed source, and every source in agreement with
      what it contributes. */
  lemma ValidMeans(h: Hashes, le: (string, string) -> bool, d: Document)
    requires TotalOrder(le)
    ensures Validate(h, le, d) == Catalogued(d) <==>
            && d.sources != [] && 1 <= |d.advisories| <= 4096
            && (forall i, j :: 0 <= i < j < |d.sources| ==> d.sources[i].sourceId != d.sources[j].sourceId)
            && UniqueIds(d.advisories)
            && (forall a :: a in d.advisories ==> exists s :: s in d.sources && s.sourceId == a.sourceId)
            && forall s :: s in d.sources ==> Agrees(h, le, s, d.advisories)
  {
    NoBadMeans(d.sources, d.advisories);
    if UniqueIds(d.advisories) {
      forall s | s in d.sources
        ensures Mismatch(h, le, s, d.advisories).None? <==> Agrees(h, le, s, d.advisories)
      {
        NoMismatchMeans(h, le, s, d.advisories);
      }
    }
    AllMatch(h, le, d.sources, d.advisories);
    hide Agrees;
    hide Mismatch;
    hide FirstBad;
    hide FirstMismatch;
    hide UniqueIds;
  }

  lemma {:induction false} NoBadMeans(sources: seq<Source>, advisories: seq<Advisory>)
    ensures FirstBad(sources, advisories) == None <==>
            UniqueIds(advisories)
            && forall a :: a in advisories ==> exists s :: s in sources && s.sourceId == a.sourceId
  {
    if advisories != [] {
      var front, a := advisories[..|advisories| - 1], advisories[|advisories| - 1];
      assert advisories == front + [a];
      NoBadMeans(sources, front);
      UniqueNext(front, a);
      hide UniqueIds;
      hide Ids;
    }
  }

  lemma UniqueNext(front: seq<Advisory>, a: Advisory)
    ensures UniqueIds(front + [a]) <==> UniqueIds(front) && a.id !in Ids(front)
  {
    var all := front + [a];
    assert forall i :: 0 <= i < |front| ==> all[i] == front[i] && front[i] in front;
    assert all[|front|] == a;
    if UniqueIds(all) {
      forall x | x in front ensures x.id != a.id {
        var i :| 0 <= i < |front| && front[i] == x;
        assert all[i] == x;
      }
    }
    if UniqueIds(front) && a.id !in Ids(front) {
      forall i, j | 0 <= i < |all| && 0 <= j < |all| && all[i].id == all[j].id ensures i == j {
      }
    }
  }

  lemma {:induction false} AllMatch(h: Hashes, le: (string, string) -> bool, sources: seq<Source>,
                                    advisories: seq<Advisory>)
    ensures FirstMismatch(h, le, sources, advisories) == None <==>
            forall s :: s in sources ==> Mismatch(h, le, s, advisories) == None
  {
    if sources != [] {
      AllMatch(h, le, sources[..|sources| - 1], advisories);
      assert sources == sources[..|sources| - 1] + [sources[|sources| - 1]];
    }
    hide Mismatch;
  }

  lemma NoMismatchMeans(h: Hashes, le: (string, string) -> bool, s: Source, advisories: seq<Advisory>)
    requires TotalOrder(le) && UniqueIds(advisories)
    ensures Mismatch(h, le, s, advisories) == None <==> Agrees(h, le, s, advisories)
  {
    hide *;
    var ordered := Sort(ById(le), OfSource(s.sourceId, advisories));
    SortContributes(le, s.sourceId, advisories);
    OrderedSize(le, s.sourceId, advisories);
    NoMismatchIs(h, le, s, advisories, ordered);
    if Mismatch(h, le, s, advisories) == None {
      MatchAgrees(h, le, s, advisories, ordered);
    }
    if Agrees(h, le, s, advisories) {
      AgreeingMatches(h, le, s, advisories, ordered);
    }
  }

  lemma OrderedSize(le: (string, string) -> bool, sourceId: string, advisories: seq<Advisory>)
    ensures |Sort(ById(le), OfSource(sourceId, advisories))| == |OfSource(sourceId, advisories)|
  {
    var mine := OfSource(sourceId, advisories);
    SameSize(Sort(ById(le), mine), mine);
    hide Sort;
    hide OfSource;
  }

  lemma NoMismatchIs(h: Hashes, le: (string, string) -> bool, s: Source, advisories: seq<Advisory>,
                     ordered: seq<Advisory>)
    requires ordered == Sort(ById(le), OfSource(s.sourceId, advisories))
    requires |ordered| == |OfSource(s.sourceId, advisories)|
    ensures Mismatch(h, le, s, advisories) ==
            if |ordered| != s.count then Some(CountMismatch)
            else if h.contribution(ordered) != s.contribution then Some(ContributionMismatch)
            else if h.semantic(Semantics(ordered)) != s.semantic then Some(SemanticMismatch)
            else None
  {
    hide *;
    MismatchIs(h, le, s, advisories, OfSource(s.sourceId, advisories));
  }

  lemma MatchAgrees(h: Hashes, le: (string, string) -> bool, s: Source, advisories: seq<Advisory>,
                    ordered: seq<Advisory>)
    requires Contributes(le, s.sourceId, advisories, ordered) && |ordered| == s.count
    requires h.contribution(ordered) == s.contribution && h.semantic(Semantics(ordered)) == s.semantic
    ensures Agrees(h, le, s, advisories)
  {
    hide Contributes;
    var texts := Semantics(ordered);
    assert |texts| == |ordered| && forall i :: 0 <= i < |ordered| ==> texts[i] == ordered[i].semantic;
    hide Semantics;
  }

  lemma AgreeingMatches(h: Hashes, le: (string, string) -> bool, s: Source, advisories: seq<Advisory>,
                        ordered: seq<Advisory>)
    requires TotalOrder(le) && UniqueIds(advisories)
    requires Contributes(le, s.sourceId, advisories, ordered) && Agrees(h, le, s, advisories)
    ensures |ordered| == s.count && h.contribution(ordered) == s.contribution
    ensures h.semantic(Semantics(ordered)) == s.semantic
  {
    hide Contributes;
    hide UniqueIds;
    hide TotalOrder;
    var list: seq<Advisory>, texts: seq<string> :|
      Contributes(le, s.sourceId, advisories, list) && |texts| == |list| == s.count
      && (forall i :: 0 <= i < |list| ==> texts[i] == list[i].semantic)
      && h.contribution(list) == s.contribution && h.semantic(texts) == s.semantic;
    ContributesOnce(le, s.sourceId, advisories, list, ordered);
    assert texts == Semantics(ordered);
  }

  lemma SortContributes(le: (string, string) -> bool, sourceId: string, advisories: seq<Advisory>)
    requires TotalOrder(le)
    ensures Contributes(le, sourceId, advisories, Sort(ById(le), OfSource(sourceId, advisories)))
  {
    var mine := OfSource(sourceId, advisories);
    ByIdIsOrder(le);
    SortSorts(ById(le), mine);
    var ordered := Sort(ById(le), mine);
    forall i, j | 0 <= i < j < |ordered| ensures le(ordered[i].id, ordered[j].id) {
      assert ById(le)(ordered[i], ordered[j]);
    }
    forall a ensures multiset(ordered)[a] == if a.sourceId == sourceId then multiset(advisories)[a] else 0 {
      OfSourceCounts(sourceId, advisories, a);
    }
    hide Sort;
    hide OfSource;
  }

  /** Where ids are unique a source contributes one list only. */
  lemma ContributesOnce(le: (string, string) -> bool, sourceId: string, advisories: seq<Advisory>,
                        xs: seq<Advisory>, ys: seq<Advisory>)
    requires TotalOrder(le) && UniqueIds(advisories)
    requires Contributes(le, sourceId, advisories, xs) && Contributes(le, sourceId, advisories, ys)
    ensures xs == ys
  {
    var order := ById(le);
    ByIdIsOrder(le);
    assert multiset(xs) == multiset(ys);
    assert Sorted(order, xs) && Sorted(order, ys);
    forall a, b | a in xs && b in xs && order(a, b) && order(b, a) ensures a == b {
      assert a.id == b.id;
      assert a in multiset(xs) && b in multiset(xs);
      assert a in multiset(advisories) && b in multiset(advisories);
      var i :| 0 <= i < |advisories| && advisories[i] == a;
      var j :| 0 <= j < |advisories| && advisories[j] == b;
    }
    forall x ensures order(x, x) {
      assert le(x.id, x.id);
    }
    SortedPermutationsAreEqual(order, xs, ys);
  }

  /** Advisory `i` is the first bad one, and this is what is wrong with it. */
  ghost predicate BadAt(sources: seq<Source>, advisories: seq<Advisory>, i: nat, bad: CatalogError)
    requires i < |advisories|
  {
    && FirstBad(sources, advisories[..i]) == None
    && if exists j :: 0 <= j < i && advisories[j].id == advisories[i].id then bad == DuplicateAdvisory
       else bad == UnknownSource && forall s :: s in sources ==> s.sourceId != advisories[i].sourceId
  }

  /** The first problem is the one reported: of two advisories with the same id the later, or one of no
      listed source, before which nothing is wrong. */
  lemma {:induction false} FirstBadMeans(sources: seq<Source>, advisories: seq<Advisory>)
    ensures var bad := FirstBad(sources, advisories);
            bad.Some? ==> exists i: nat :: i < |advisories| && BadAt(sources, advisories, i, bad.value)
  {
    if advisories != [] && FirstBad(sources, advisories).Some? {
      var front := advisories[..|advisories| - 1];
      if FirstBad(sources, front).Some? {
        FirstBadMeans(sources, front);
        var i: nat :| i < |front| && BadAt(sources, front, i, FirstBad(sources, front).value);
        StillBadAt(sources, front, advisories, i, FirstBad(sources, front).value);
      } else {
        LastIsBad(sources, advisories);
      }
    }
    hide BadAt;
  }

  lemma StillBadAt(sources: seq<Source>, front: seq<Advisory>, advisories: seq<Advisory>, i: nat, bad: CatalogError)
    requires front <= advisories && i < |front| && BadAt(sources, front, i, bad)
    ensures BadAt(sources, advisories, i, bad)
  {
    assert front[..i] == advisories[..i];
    hide FirstBad;
  }

  lemma LastIsBad(sources: seq<Source>, advisories: seq<Advisory>)
    requires advisories != [] && FirstBad(sources, advisories[..|advisories| - 1]) == None
    requires FirstBad(sources, advisories).Some?
    ensures BadAt(sources, advisories, |advisories| - 1, FirstBad(sources, advisories).value)
  {
    var front, a := advisories[..|advisories| - 1], advisories[|advisories| - 1];
    IdsAt(front, a.id);
    hide Ids;
  }

  lemma IdsAt(front: seq<Advisory>, id: string)
    ensures id in Ids(front) <==> exists j :: 0 <= j < |front| && front[j].id == id
  {
  }

  /** Which of its three figures a source is refused for: the count first, then the digest of what it
      contributes, then that of the meaning. */
  lemma MismatchMeans(h: Hashes, le: (string, string) -> bool, s: Source, advisories: seq<Advisory>,
                      mine: seq<Advisory>)
    requires TotalOrder(le) && UniqueIds(advisories) && Contributes(le, s.sourceId, advisories, mine)
    ensures Mismatch(h, le, s, advisories) == Some(CountMismatch) <==> |mine| != s.count
    ensures Mismatch(h, le, s, advisories) == Some(ContributionMismatch) <==>
            |mine| == s.count && h.contribution(mine) != s.contribution
  {
    hide *;
    var ordered := Sort(ById(le), OfSource(s.sourceId, advisories));
    SortContributes(le, s.sourceId, advisories);
    OrderedSize(le, s.sourceId, advisories);
    ContributesOnce(le, s.sourceId, advisories, mine, ordered);
    NoMismatchIs(h, le, s, advisories, ordered);
  }
}
