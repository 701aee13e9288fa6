/**
 * `reasonsByCategory`, built the same way by the interaction form and the
 * reason administration page: one list per category, filled by pushing each
 * reason of the catalogue onto the list of its category.
 */
module ReasonGroups {
  import opened Seqs
  import opened Types

  /** `reason.category === c` */
  function InCategory(c: string): Reason -> bool {
    (r: Reason) => r.category == c
  }

  /** The keys are exactly the categories of the catalogue. */
  ghost predicate KeysAreCategories(groups: map<string, seq<Reason>>, reasons: seq<Reason>) {
    forall c :: c in groups <==> exists k :: 0 <= k < |reasons| && reasons[k].category == c
  }

  /** Each key holds the reasons of its category, in catalogue order. */
  ghost predicate GroupsInOrder(groups: map<string, seq<Reason>>, reasons: seq<Reason>) {
    forall c :: c in groups ==> groups[c] == Filter(reasons, InCategory(c))
  }

  ghost predicate GroupedBy(groups: map<string, seq<Reason>>, reasons: seq<Reason>) {
    KeysAreCategories(groups, reasons) && GroupsInOrder(groups, reasons)
  }

  /** The size of each group. */
  ghost function Sizes(groups: map<string, seq<Reason>>): map<string, nat> {
    map c | c in groups :: |groups[c]|
  }

  /** One step of the `forEach`: the reason pushed onto its category's list, created empty if missing. */
  function Push(groups: map<string, seq<Reason>>, r: Reason): map<string, seq<Reason>> {
    groups[r.category := (if r.category in groups then groups[r.category] else []) + [r]]
  }

  /** A step adds the reason's category to the keys. */
  lemma PushKeys(groups: map<string, seq<Reason>>, reasons: seq<Reason>, r: Reason)
    requires KeysAreCategories(groups, reasons)
    ensures KeysAreCategories(Push(groups, r), reasons + [r])
  {
    var s := reasons + [r];
    var after := Push(groups, r);
    forall c ensures c in after <==> exists k :: 0 <= k < |s| && s[k].category == c {
      if c in groups {
        var k :| 0 <= k < |reasons| && reasons[k].category == c;
        assert s[k] == reasons[k];
      }
      if c == r.category {
        assert s[|reasons|] == r;
      }
      if k :| 0 <= k < |s| && s[k].category == c {
        if k < |reasons| {
          assert reasons[k] == s[k];
        }
      }
    }
  }

  /** A step appends the reason to its own category's list and leaves the other lists alone. */
  lemma PushInOrder(groups: map<string, seq<Reason>>, reasons: seq<Reason>, r: Reason)
    requires KeysAreCategories(groups, reasons) && GroupsInOrder(groups, reasons)
    ensures GroupsInOrder(Push(groups, r), reasons + [r])
  {
    forall c | c in Push(groups, r) ensures Push(groups, r)[c] == Filter(reasons + [r], InCategory(c)) {
      PushInOrderAt(groups, reasons, r, c);
    }
  }

  lemma PushInOrderAt(groups: map<string, seq<Reason>>, reasons: seq<Reason>, r: Reason, c: string)
    requires KeysAreCategories(groups, reasons) && GroupsInOrder(groups, reasons)
    requires c in Push(groups, r)
    ensures Push(groups, r)[c] == Filter(reasons + [r], InCategory(c))
  {
    var p := InCategory(c);
    FilterAppend(reasons, [r], p);
    assert Filter([r], p) == if p(r) then [r] else [] by {
      assert [r][1..] == [];
    }
    if c !in groups {
      forall i | 0 <= i < |reasons| ensures !p(reasons[i]) {
        assert reasons[i].category != c;
      }
      FilterKeepsNone(reasons, p);
    }
  }

  /** A step adds one to the total size of the groups. */
  lemma PushSize(groups: map<string, seq<Reason>>, r: Reason)
    ensures SumValues(Sizes(Push(groups, r))) == SumValues(Sizes(groups)) + 1
  {
    var c := r.category;
    var old_size := if c in groups then |groups[c]| else 0;
    SumValuesUpdate(Sizes(groups), c, old_size + 1);
    assert Sizes(Push(groups, r)) == Sizes(groups)[c := old_size + 1];
  }

  /** The lists after pushing `rest` in order, starting from `groups`. */
  function GroupFrom(groups: map<string, seq<Reason>>, rest: seq<Reason>): map<string, seq<Reason>>
    decreases rest
  {
    if rest == [] then groups else GroupFrom(Push(groups, rest[0]), rest[1..])
  }

  /** The lists after pushing the whole catalogue, starting from `{}`. */
  function Grouped(reasons: seq<Reason>): map<string, seq<Reason>> {
    GroupFrom(map[], reasons)
  }

  /** Pushing the rest of the catalogue adds exactly its categories to the keys. */
  lemma {:induction false} GroupFromKeys(groups: map<string, seq<Reason>>, seen: seq<Reason>, rest: seq<Reason>)
    requires KeysAreCategories(groups, seen)
    ensures KeysAreCategories(GroupFrom(groups, rest), seen + rest)
    decreases rest
  {
    if rest == [] {
      assert seen + rest == seen;
    } else {
      var seen' := seen + [rest[0]];
      assert seen' + rest[1..] == seen + rest;
      PushKeys(groups, seen, rest[0]);
      GroupFromKeys(Push(groups, rest[0]), seen', rest[1..]);
    }
  }

  /** Pushing the rest of the catalogue onto a grouping of its start groups the whole of it in order. */
  lemma {:induction false} GroupFromInOrder(groups: map<string, seq<Reason>>, seen: seq<Reason>, rest: seq<Reason>)
    requires KeysAreCategories(groups, seen) && GroupsInOrder(groups, seen)
    ensures GroupsInOrder(GroupFrom(groups, rest), seen + rest)
    decreases rest
  {
    if rest == [] {
      assert seen + rest == seen;
    } else {
      var seen' := seen + [rest[0]];
      assert seen' + rest[1..] == seen + rest;
      PushKeys(groups, seen, rest[0]);
      PushInOrder(groups, seen, rest[0]);
      GroupFromInOrder(Push(groups, rest[0]), seen', rest[1..]);
    }
  }

  /** Each pushed reason adds one to the total size. */
  lemma {:induction false} GroupFromSize(groups: map<string, seq<Reason>>, rest: seq<Reason>)
    ensures SumValues(Sizes(GroupFrom(groups, rest))) == SumValues(Sizes(groups)) + |rest|
    decreases rest
  {
    if rest != [] {
      PushSize(groups, rest[0]);
      GroupFromSize(Push(groups, rest[0]), rest[1..]);
    }
  }

  /**
   * Every category of the catalogue gets a list holding its reasons in
   * catalogue order, no other key appears, and the list sizes add up to the
   * size of the catalogue.
   */
  lemma GroupedSpec(reasons: seq<Reason>)
    ensures GroupedBy(Grouped(reasons), reasons)
    ensures SumValues(Sizes(Grouped(reasons))) == |reasons|
  {
    var empty: map<string, seq<Reason>> := map[];
    assert Sizes(empty) == map[];
    assert SumValues(Sizes(empty)) == 0;
    assert [] + reasons == reasons;
    GroupFromKeys(empty, [], reasons);
    GroupFromInOrder(empty, [], reasons);
    GroupFromSize(empty, reasons);
  }

  /**
   * The `forEach` that creates a category's list on its first reason and
   * pushes every reason onto the list of its category.
   */
  method GroupByCategory(reasons: seq<Reason>) returns (groups: map<string, seq<Reason>>)
    ensures groups == Grouped(reasons)
  {
    groups := map[];
    var i := 0;
    assert reasons[0..] == reasons;
    while i < |reasons|
      invariant 0 <= i <= |reasons|
      invariant GroupFrom(groups, reasons[i..]) == Grouped(reasons)
    {
      var reason := reasons[i];
      assert reasons[i..][1..] == reasons[i + 1..];
      ghost var before := groups;
      if reason.category !in groups {
        groups := groups[reason.category := []];
      }
      groups := groups[reason.category := groups[reason.category] + [reason]];
      assert groups == Push(before, reason);
      i := i + 1;
    }
  }

  /** Every reason of the catalogue is in exactly one group, the one keyed by its own category. */
  lemma ExactlyOneGroup(groups: map<string, seq<Reason>>, reasons: seq<Reason>, r: Reason)
    requires GroupedBy(groups, reasons)
    requires r in reasons
    ensures r.category in groups && r in groups[r.category]
    ensures forall c :: c in groups && r in groups[c] ==> c == r.category
  {
    var k :| 0 <= k < |reasons| && reasons[k] == r;
    assert r.category in groups;
  }
}
