/**
 * The per-category reason tally that the dashboard and the reports both build:
 * a `Record<string, number>` filled by visiting every reason id of every
 * interaction and adding one to the category of the reason it resolves to.
 */
module CategoryCounts {
  import opened Wrappers
  import opened Seqs
  import opened Types

  /** Every reason id of the log in visiting order: record by record, each in list order. */
  function AllReasonIds(interactions: seq<Interaction>): seq<string> {
    if interactions == [] then [] else interactions[0].reasonIds + AllReasonIds(interactions[1..])
  }

  /** `counts[c] || 0`: the count of a category, absent keys reading as 0. */
  function CountOf(counts: map<string, nat>, c: string): nat {
    if c in counts then counts[c] else 0
  }

  /** One visit: `counts[reason.category] = (counts[reason.category] || 0) + 1` when the id resolves. */
  function Bump(counts: map<string, nat>, reasons: seq<Reason>, id: string): map<string, nat> {
    match FindReason(reasons, id)
    case Some(r) => counts[r.category := CountOf(counts, r.category) + 1]
    case None => counts
  }

  /** The record after visiting `ids` in order, starting from `counts`. */
  function TallyFrom(counts: map<string, nat>, reasons: seq<Reason>, ids: seq<string>): map<string, nat>
    decreases ids
  {
    if ids == [] then counts else TallyFrom(Bump(counts, reasons, ids[0]), reasons, ids[1..])
  }

  /** The record after visiting `ids` in order, starting from the empty record `{}`. */
  function Tally(reasons: seq<Reason>, ids: seq<string>): map<string, nat> {
    TallyFrom(map[], reasons, ids)
  }

  /** The id resolves to a reason of category `c`. */
  function ResolvesTo(reasons: seq<Reason>, c: string): string -> bool {
    id => FindReason(reasons, id).Some? && FindReason(reasons, id).value.category == c
  }

  /** The id resolves to some reason of the catalogue. */
  function Resolves(reasons: seq<Reason>): string -> bool {
    id => FindReason(reasons, id).Some?
  }

  /** Visiting two runs of ids one after the other is visiting their concatenation. */
  lemma {:induction false} TallyFromAppend(counts: map<string, nat>, reasons: seq<Reason>, a: seq<string>, b: seq<string>)
    ensures TallyFrom(counts, reasons, a + b) == TallyFrom(TallyFrom(counts, reasons, a), reasons, b)
    decreases a
  {
    if a == [] {
      assert a + b == b;
    } else {
      assert (a + b)[1..] == a[1..] + b;
      TallyFromAppend(Bump(counts, reasons, a[0]), reasons, a[1..], b);
    }
  }

  /** One visit adds one to the category the id resolves to, and nothing elsewhere. */
  lemma BumpCount(counts: map<string, nat>, reasons: seq<Reason>, id: string, c: string)
    ensures CountOf(Bump(counts, reasons, id), c) == CountOf(counts, c) + if ResolvesTo(reasons, c)(id) then 1 else 0
    ensures c in Bump(counts, reasons, id) <==> c in counts || ResolvesTo(reasons, c)(id)
  {
  }

  /**
   * Each visited id adds one to the category it resolves to and nothing
   * elsewhere; a category gains a key only when some id resolves to it.
   */
  lemma {:induction false} TallyFromCounts(counts: map<string, nat>, reasons: seq<Reason>, ids: seq<string>, c: string)
    ensures CountOf(TallyFrom(counts, reasons, ids), c) == CountOf(counts, c) + |Filter(ids, ResolvesTo(reasons, c))|
    ensures c in TallyFrom(counts, reasons, ids) <==> c in counts || |Filter(ids, ResolvesTo(reasons, c))| > 0
    decreases ids
  {
    if ids != [] {
      TallyFromCounts(Bump(counts, reasons, ids[0]), reasons, ids[1..], c);
      BumpCount(counts, reasons, ids[0], c);
      FilterConsLength(ids, ResolvesTo(reasons, c));
    }
  }

  /** One visit adds one to the sum of the counts when the id resolves. */
  lemma BumpSum(counts: map<string, nat>, reasons: seq<Reason>, id: string)
    ensures SumValues(Bump(counts, reasons, id)) == SumValues(counts) + if Resolves(reasons)(id) then 1 else 0
  {
    match FindReason(reasons, id)
    case Some(r) =>
      SumValuesUpdate(counts, r.category, CountOf(counts, r.category) + 1);
    case None =>
  }

  /** Each visited id that resolves adds one to the sum of the counts. */
  lemma {:induction false} TallyFromSum(counts: map<string, nat>, reasons: seq<Reason>, ids: seq<string>)
    ensures SumValues(TallyFrom(counts, reasons, ids)) == SumValues(counts) + |Filter(ids, Resolves(reasons))|
    decreases ids
  {
    if ids != [] {
      TallyFromSum(Bump(counts, reasons, ids[0]), reasons, ids[1..]);
      BumpSum(counts, reasons, ids[0]);
      FilterConsLength(ids, Resolves(reasons));
    }
  }

  /**
   * The count of a category is the number of visited ids resolving to it, one
   * per id (so two reasons of one category on one record count twice), and a
   * category is a key only with a positive count.
   */
  lemma TallyCounts(reasons: seq<Reason>, ids: seq<string>, c: string)
    ensures CountOf(Tally(reasons, ids), c) == |Filter(ids, ResolvesTo(reasons, c))|
    ensures c in Tally(reasons, ids) <==> CountOf(Tally(reasons, ids), c) > 0
  {
    TallyFromCounts(map[], reasons, ids, c);
  }

  /** A category is a key exactly when some visited id resolves to it; unknown ids add no key. */
  lemma TallyKeys(reasons: seq<Reason>, ids: seq<string>, c: string)
    ensures c in Tally(reasons, ids) <==> exists k :: 0 <= k < |ids| && ResolvesTo(reasons, c)(ids[k])
  {
    TallyCounts(reasons, ids, c);
    var f := Filter(ids, ResolvesTo(reasons, c));
    if k :| 0 <= k < |ids| && ResolvesTo(reasons, c)(ids[k]) {
      assert ids[k] in f;
    }
    if |f| > 0 {
      assert f[0] in ids;
      var k :| 0 <= k < |ids| && ids[k] == f[0];
      assert ResolvesTo(reasons, c)(ids[k]);
    }
  }

  /** The counts add up to the number of visited ids that resolve at all. */
  lemma TallySum(reasons: seq<Reason>, ids: seq<string>)
    ensures SumValues(Tally(reasons, ids)) == |Filter(ids, Resolves(reasons))|
  {
    var empty: map<string, nat> := map[];
    assert SumValues(empty) == 0;
    TallyFromSum(empty, reasons, ids);
  }
}
