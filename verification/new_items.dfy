/**
 * The new-item filter of one check: a left fold over the listing's
 * `results` that reports each record whose `document_number` is present,
 * non-empty and not yet in the seen set, adding that identifier to the set.
 */
module NewItems {
  import opened Optional

  /**
   * One record of the listing. Only `documentNumber` drives the filter; the
   * other fields are what a notification shows. `None` is a missing key or
   * a JSON `null`.
   */
  datatype Doc = Doc(
    documentNumber: Option<string>,
    title: Option<string>,
    executiveOrderNumber: Option<string>,
    signingDate: Option<string>,
    htmlUrl: Option<string>)

  /** The decoded response body; `results` is `None` when the key is missing. */
  datatype Listing = Listing(results: Option<seq<Doc>>)

  /** The records iterated over: a missing `results` key reads as an empty list. */
  function Results(l: Listing): seq<Doc> {
    l.results.GetOr([])
  }

  /** The identifier is truthy: present and not the empty string. */
  predicate HasId(d: Doc) {
    d.documentNumber.Some? && d.documentNumber.value != ""
  }

  function Id(d: Doc): string
    requires HasId(d)
  {
    d.documentNumber.value
  }

  /** Some record of `docs` has the truthy identifier `x`. */
  predicate Occurs(docs: seq<Doc>, x: string) {
    exists k :: 0 <= k < |docs| && HasId(docs[k]) && Id(docs[k]) == x
  }

  /** The truthy identifiers occurring in a sequence of records (`IdsOnlyOccurring` gives the converse). */
  function Ids(docs: seq<Doc>): (ids: set<string>)
    ensures forall k :: 0 <= k < |docs| && HasId(docs[k]) ==> Id(docs[k]) in ids
    decreases |docs|
  {
    if |docs| == 0 then
      {}
    else
      (if HasId(docs[0]) then {Id(docs[0])} else {}) + Ids(docs[1..])
  }

  /** Every member of `Ids(docs)` is the truthy identifier of some record of `docs`. */
  lemma {:induction false} IdsOnlyOccurring(docs: seq<Doc>)
    ensures forall x :: x in Ids(docs) ==> Occurs(docs, x)
    decreases |docs|
  {
    if |docs| > 0 {
      IdsOnlyOccurring(docs[1..]);
      forall x | x in Ids(docs)
        ensures Occurs(docs, x)
      {
        if !(HasId(docs[0]) && Id(docs[0]) == x) {
          assert x in Ids(docs[1..]);
          assert Occurs(docs[1..], x);
          var k :| 0 <= k < |docs[1..]| && HasId(docs[1..][k]) && Id(docs[1..][k]) == x;
          assert docs[k + 1] == docs[1..][k];
        }
      }
    }
  }

  /** Identifiers of a concatenation. */
  lemma {:induction false} IdsAppend(a: seq<Doc>, b: seq<Doc>)
    ensures Ids(a + b) == Ids(a) + Ids(b)
    decreases |a|
  {
    if |a| > 0 {
      assert (a + b)[0] == a[0];
      assert (a + b)[1..] == a[1..] + b;
      IdsAppend(a[1..], b);
    } else {
      assert a + b == b;
    }
  }

  /** No identifier occurs twice among the records that have one. */
  predicate DistinctIds(docs: seq<Doc>) {
    forall i, j :: 0 <= i < j < |docs| && HasId(docs[i]) && HasId(docs[j]) ==> Id(docs[i]) != Id(docs[j])
  }

  /** What the fold produces: the updated seen set and the reported records, in order. */
  datatype FilterResult = FilterResult(seen: set<string>, reported: seq<Doc>)

  /** A record is reported when its identifier is truthy and not yet seen. */
  predicate IsNew(d: Doc, seen: set<string>) {
    HasId(d) && Id(d) !in seen
  }

  /** Every record has a truthy identifier that is not in `seen`. */
  predicate AllNew(docs: seq<Doc>, seen: set<string>) {
    forall j :: 0 <= j < |docs| ==> IsNew(docs[j], seen)
  }

  /**
   * The fold over `results`: each new record is reported and its identifier
   * added before the next record is examined.
   */
  function Filter(results: seq<Doc>, seen: set<string>): (r: FilterResult)
    ensures seen <= r.seen
    ensures r.seen == seen + Ids(results)
    ensures r.seen == seen + Ids(r.reported)
    ensures AllNew(r.reported, seen)
    ensures DistinctIds(r.reported)
    ensures Ids(r.reported) == Ids(results) - seen
    decreases |results|
  {
    if |results| == 0 then
      FilterResult(seen, [])
    else
      var d := results[0];
      if IsNew(d, seen) then
        var rest := Filter(results[1..], seen + {Id(d)});
        assert ([d] + rest.reported)[1..] == rest.reported;
        FilterResult(rest.seen, [d] + rest.reported)
      else
        Filter(results[1..], seen)
  }

  /** The number of identifiers added equals the number of records reported. */
  lemma {:induction false} AddedCountsReported(results: seq<Doc>, seen: set<string>)
    ensures |Filter(results, seen).seen| == |seen| + |Filter(results, seen).reported|
    decreases |results|
  {
    if |results| > 0 {
      var d := results[0];
      if IsNew(d, seen) {
        assert |seen + {Id(d)}| == |seen| + 1;
        AddedCountsReported(results[1..], seen + {Id(d)});
      } else {
        AddedCountsReported(results[1..], seen);
      }
    }
  }

  /**
   * Folding over a concatenation is folding over the first part, then over
   * the second part from the set the first part left.
   */
  lemma {:induction false} FilterAppend(a: seq<Doc>, b: seq<Doc>, seen: set<string>)
    ensures Filter(a + b, seen)
            == FilterResult(Filter(b, Filter(a, seen).seen).seen,
                            Filter(a, seen).reported + Filter(b, Filter(a, seen).seen).reported)
    decreases |a|
  {
    if |a| == 0 {
      assert a + b == b;
    } else {
      var d := a[0];
      assert (a + b)[0] == d && (a + b)[1..] == a[1..] + b;
      var seen1 := if IsNew(d, seen) then seen + {Id(d)} else seen;
      FilterAppend(a[1..], b, seen1);
      if IsNew(d, seen) {
        var ra := Filter(a[1..], seen1);
        var rb := Filter(b, ra.seen);
        assert [d] + (ra.reported + rb.reported) == ([d] + ra.reported) + rb.reported;
      }
    }
  }

  /**
   * Reference definition, record by record from the front: a record is
   * reported exactly when its identifier is truthy and absent from the set
   * as it stands when the record is reached, i.e. the starting set plus the
   * identifiers of every earlier record.
   */
  function Reported(results: seq<Doc>, seen: set<string>): seq<Doc>
    decreases |results|
  {
    if |results| == 0 then
      []
    else
      var earlier := results[..|results| - 1];
      var d := results[|results| - 1];
      Reported(earlier, seen) + (if IsNew(d, seen + Ids(earlier)) then [d] else [])
  }

  /** The fold reports exactly the reference sequence, in the same order. */
  lemma {:induction false} FilterMatchesReported(results: seq<Doc>, seen: set<string>)
    ensures Filter(results, seen).reported == Reported(results, seen)
    decreases |results|
  {
    if |results| > 0 {
      var earlier := results[..|results| - 1];
      var d := results[|results| - 1];
      assert results == earlier + [d];
      FilterAppend(earlier, [d], seen);
      FilterMatchesReported(earlier, seen);
      assert [d][1..] == [];
    }
  }

  /** A listing whose identifiers are all already seen reports nothing and adds nothing. */
  lemma NothingNewWhenAllSeen(results: seq<Doc>, seen: set<string>)
    requires Ids(results) <= seen
    ensures Filter(results, seen) == FilterResult(seen, [])
  {
  }

  /**
   * Idempotence: folding the same listing again over the set the first
   * fold produced reports nothing and leaves the set unchanged.
   */
  lemma FilterIdempotent(results: seq<Doc>, seen: set<string>)
    ensures Filter(results, Filter(results, seen).seen)
            == FilterResult(Filter(results, seen).seen, [])
  {
  }

  /** The empty string is never an identifier of the fold. */
  lemma {:induction false} EmptyIsNeverAnId(docs: seq<Doc>)
    ensures "" !in Ids(docs)
    decreases |docs|
  {
    if |docs| > 0 {
      EmptyIsNeverAnId(docs[1..]);
    }
  }

  /**
   * Records whose identifier is missing or empty are skipped: they are not
   * reported, and neither `None` nor the empty string enters the set.
   */
  lemma UntruthyIdsSkipped(results: seq<Doc>, seen: set<string>)
    ensures forall j :: 0 <= j < |Filter(results, seen).reported| ==> HasId(Filter(results, seen).reported[j])
    ensures "" in Filter(results, seen).seen <==> "" in seen
  {
  }

  /**
   * A first sighting: with an empty set, a listing holding one identifier
   * twice reports that record once and leaves exactly that identifier.
   */
  lemma FirstSighting(d: Doc)
    requires d.documentNumber == Some("2025-00001")
    ensures Filter([d, d], {}) == FilterResult({"2025-00001"}, [d])
    ensures Filter([d], {"2025-00001"}) == FilterResult({"2025-00001"}, [])
  {
  }
}
