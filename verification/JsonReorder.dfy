/**
  `reorderJsonLike` of tools/deploy-rule-data.ts: a JSON value put in the order of a reference value.

  Objects are ordered lists of members with distinct keys; `undefined` is the absence of a reference.
 */
module JsonReorder {
  import opened Options

  datatype Scalar = Null | Boolean(value: bool) | Number(text: string) | Text(text: string)

  datatype Json = Leaf(scalar: Scalar) | Array(items: seq<Json>) | Object(members: seq<Member>)
  datatype Member = Member(key: string, value: Json)

  predicate HasOwn(members: seq<Member>, key: string) {
    exists i | 0 <= i < |members| :: members[i].key == key
  }

  function Lookup(members: seq<Member>, key: string): (value: Json)
    requires HasOwn(members, key)
    ensures exists i | 0 <= i < |members| :: members[i] == Member(key, value)
  {
    if members[0].key == key then members[0].value else Lookup(members[1..], key)
  }

  function LookupOption(members: seq<Member>, key: string): Option<Json> {
    if HasOwn(members, key) then Some(Lookup(members, key)) else None
  }

  predicate DistinctKeys(members: seq<Member>) {
    forall i, j | 0 <= i < j < |members| :: members[i].key != members[j].key
  }

  /** Keys are distinct in every object of the tree. */
  predicate Valid(value: Json) {
    match value
    case Leaf(_) => true
    case Array(items) => forall i | 0 <= i < |items| :: Valid(items[i])
    case Object(members) => DistinctKeys(members) && forall i | 0 <= i < |members| :: Valid(members[i].value)
  }

  predicate IsScalarArray(items: seq<Json>) {
    forall i | 0 <= i < |items| :: items[i].Leaf?
  }

  // ----- Scalar arrays -----

  function IndexOf(items: seq<Json>, item: Json): (index: nat)
    requires item in items
    ensures index < |items| && items[index] == item && item !in items[..index]
  {
    if items[0] == item then 0 else 1 + IndexOf(items[1..], item)
  }

  function Without(items: seq<Json>, item: Json): seq<Json>
    requires item in items
  {
    var i := IndexOf(items, item);
    items[..i] + items[i + 1..]
  }

  /** The reference's values as far as there are equal ones left, then what is left. */
  function ReorderScalars(items: seq<Json>, reference: seq<Json>): seq<Json>
    decreases |reference|
  {
    if reference == [] then items
    else if reference[0] in items then [reference[0]] + ReorderScalars(Without(items, reference[0]), reference[1..])
    else ReorderScalars(items, reference[1..])
  }

  // ----- Trees -----

  function ItemReference(reference: Option<Json>, index: nat): Option<Json> {
    if reference.Some? && reference.value.Array? && index < |reference.value.items| then Some(reference.value.items[index]) else None
  }

  function ReferenceMembers(reference: Option<Json>): seq<Member> {
    if reference.Some? && reference.value.Object? then reference.value.members else []
  }

  predicate BothScalarArrays(value: Json, reference: Option<Json>) {
    value.Array? && reference.Some? && reference.value.Array? && IsScalarArray(value.items) && IsScalarArray(reference.value.items)
  }

  function Reorder(value: Json, reference: Option<Json>): Json
    decreases value, 1, 0
  {
    match value
    case Leaf(_) => value
    case Array(items) =>
      if BothScalarArrays(value, reference) then Array(ReorderScalars(items, reference.value.items))
      else Array(seq(|items|, i requires 0 <= i < |items| => Reorder(items[i], ItemReference(reference, i))))
    case Object(members) =>
      Object(Referenced(value, ReferenceMembers(reference)) + Unreferenced(value, members, ReferenceMembers(reference)))
  }

  /** The members of `value` that the reference has, in the reference's order. */
  function Referenced(value: Json, reference: seq<Member>): seq<Member>
    requires value.Object?
    decreases value, 0, |reference|
  {
    if reference == [] then []
    else
      var r := reference[0];
      (if HasOwn(value.members, r.key) then [Member(r.key, Reorder(Lookup(value.members, r.key), Some(r.value)))] else [])
      + Referenced(value, reference[1..])
  }

  /** The other members, in their own order. */
  function Unreferenced(value: Json, members: seq<Member>, reference: seq<Member>): seq<Member>
    requires value.Object? && forall i | 0 <= i < |members| :: members[i] in value.members
    decreases value, 0, |members|
  {
    if members == [] then []
    else
      (if HasOwn(reference, members[0].key) then [] else [Member(members[0].key, Reorder(members[0].value, None))])
      + Unreferenced(value, members[1..], reference)
  }

  // ----- Meaning -----

  /** The same tree up to the order of members and of the values of scalar arrays. */
  ghost predicate SameMeaning(a: Json, b: Json)
    decreases a
  {
    match a
    case Leaf(_) => a == b
    case Array(items) =>
      b.Array? && (if IsScalarArray(items) then IsScalarArray(b.items) && multiset(items) == multiset(b.items)
                   else |items| == |b.items| && forall i | 0 <= i < |items| :: SameMeaning(items[i], b.items[i]))
    case Object(members) =>
      && b.Object?
      && (forall i | 0 <= i < |b.members| :: HasOwn(members, b.members[i].key))
      && (forall i | 0 <= i < |members| ::
            HasOwn(b.members, members[i].key) && SameMeaning(members[i].value, Lookup(b.members, members[i].key)))
  }

  // ----- Scalar arrays: lemmas -----

  lemma WithoutOne(items: seq<Json>, item: Json)
    requires item in items
    ensures multiset(items) == multiset(Without(items, item)) + multiset{item}
    ensures |Without(items, item)| == |items| - 1
  {
    var i := IndexOf(items, item);
    assert items == items[..i] + [items[i]] + items[i + 1..];
  }

  lemma {:induction false} ScalarsKept(items: seq<Json>, reference: seq<Json>)
    ensures multiset(ReorderScalars(items, reference)) == multiset(items)
    decreases |reference|
  {
    if reference != [] {
      if reference[0] in items {
        WithoutOne(items, reference[0]);
        ScalarsKept(Without(items, reference[0]), reference[1..]);
      } else {
        ScalarsKept(items, reference[1..]);
      }
    }
  }

  lemma SameElements(a: seq<Json>, b: seq<Json>)
    requires multiset(a) == multiset(b)
    ensures |a| == |b| && forall x :: x in a <==> x in b
  {
    forall x
      ensures x in a <==> x in b
    {
      assert x in multiset(a) <==> x in multiset(b);
    }
    assert |a| == |multiset(a)| && |b| == |multiset(b)|;
  }

  lemma {:induction false} ScalarsIdempotent(items: seq<Json>, reference: seq<Json>)
    ensures ReorderScalars(ReorderScalars(items, reference), reference) == ReorderScalars(items, reference)
    decreases |reference|
  {
    if reference != [] {
      var first := reference[0];
      if first in items {
        var rest := ReorderScalars(Without(items, first), reference[1..]);
        ScalarsIdempotent(Without(items, first), reference[1..]);
        assert ([first] + rest)[0] == first;
        assert Without([first] + rest, first) == rest;
      } else {
        ScalarsIdempotent(items, reference[1..]);
        ScalarsKept(items, reference[1..]);
        SameElements(ReorderScalars(items, reference[1..]), items);
      }
    }
  }

  lemma {:induction false} ScalarsBecomeReference(items: seq<Json>, reference: seq<Json>)
    requires multiset(items) == multiset(reference)
    ensures ReorderScalars(items, reference) == reference
    decreases |reference|
  {
    SameElements(items, reference);
    if reference != [] {
      var first := reference[0];
      assert first in items;
      WithoutOne(items, first);
      assert reference == [first] + reference[1..];
      assert multiset(reference) == multiset{first} + multiset(reference[1..]);
      assert multiset(Without(items, first)) == multiset(items) - multiset{first};
      ScalarsBecomeReference(Without(items, first), reference[1..]);
    }
  }

  /** The reference's items, each while there is an equal one available. */
  function Matched(available: multiset<Json>, reference: seq<Json>): seq<Json> {
    if reference == [] then []
    else if available[reference[0]] > 0 then [reference[0]] + Matched(available - multiset{reference[0]}, reference[1..])
    else Matched(available, reference[1..])
  }

  /** The items without the first ones of each kind, as many as are wanted. */
  function Unmatched(wanted: multiset<Json>, items: seq<Json>): seq<Json> {
    if items == [] then []
    else if wanted[items[0]] > 0 then Unmatched(wanted - multiset{items[0]}, items[1..])
    else [items[0]] + Unmatched(wanted, items[1..])
  }

  lemma WithoutHead(first: Json, rest: seq<Json>, item: Json)
    ensures item == first ==> Without([first] + rest, item) == rest
    ensures item != first && item in rest ==> item in [first] + rest && Without([first] + rest, item) == [first] + Without(rest, item)
  {
    assert ([first] + rest)[1..] == rest;
  }

  lemma {:induction false} UnmatchedOneMore(wanted: multiset<Json>, items: seq<Json>, item: Json)
    ensures Unmatched(wanted + multiset{item}, items) == Unmatched(wanted, if item in items then Without(items, item) else items)
  {
    hide Without;
    if items != [] {
      var first, rest := items[0], items[1..];
      assert items == [first] + rest;
      WithoutHead(first, rest, item);
      if first == item {
        assert wanted + multiset{item} - multiset{item} == wanted;
      } else {
        UnmatchedOneMore(if wanted[first] > 0 then wanted - multiset{first} else wanted, rest, item);
        assert (wanted + multiset{item})[first] == wanted[first];
        if wanted[first] > 0 {
          assert wanted + multiset{item} - multiset{first} == wanted - multiset{first} + multiset{item};
        }
        if item in rest {
          assert ([first] + Without(rest, item))[1..] == Without(rest, item);
        }
      }
    }
  }

  lemma {:induction false} UnmatchedByNone(items: seq<Json>)
    ensures Unmatched(multiset{}, items) == items
  {
    if items != [] {
      UnmatchedByNone(items[1..]);
    }
  }

  lemma PresentStep(items: seq<Json>, first: Json, rest: seq<Json>)
    requires first in items
    ensures var fewer, reference := Without(items, first), [first] + rest;
            && Matched(multiset(items), reference) == [first] + Matched(multiset(fewer), rest)
            && Unmatched(multiset(reference), items) == Unmatched(multiset(rest), fewer)
  {
    hide Unmatched, Without;
    WithoutOne(items, first);
    UnmatchedOneMore(multiset(rest), items, first);
    assert multiset(items)[first] > 0 && multiset(items) - multiset{first} == multiset(Without(items, first));
    assert multiset([first] + rest) == multiset(rest) + multiset{first};
    assert ([first] + rest)[1..] == rest;
  }

  lemma AbsentStep(items: seq<Json>, first: Json, rest: seq<Json>)
    requires first !in items
    ensures var reference := [first] + rest;
            && Matched(multiset(items), reference) == Matched(multiset(items), rest)
            && Unmatched(multiset(reference), items) == Unmatched(multiset(rest), items)
  {
    hide Unmatched, Without;
    UnmatchedOneMore(multiset(rest), items, first);
    assert multiset(items)[first] == 0;
    assert multiset([first] + rest) == multiset(rest) + multiset{first};
    assert ([first] + rest)[1..] == rest;
  }

  lemma ReorderStep(items: seq<Json>, first: Json, rest: seq<Json>)
    ensures ReorderScalars(items, [first] + rest)
            == if first in items then [first] + ReorderScalars(Without(items, first), rest) else ReorderScalars(items, rest)
  {
    hide Without;
    assert ([first] + rest)[1..] == rest;
  }

  lemma ReorderByNothing(items: seq<Json>)
    ensures ReorderScalars(items, []) == items == Matched(multiset(items), []) + Unmatched(multiset([]), items)
  {
    UnmatchedByNone(items);
  }

  /**
    A reordered scalar array is the reference as far as the array has equal items, whatever their order, and
    then what the reference does not account for, in the array's order; of equal items the last ones stay there.
   */
  lemma {:induction false} ScalarsInOrder(items: seq<Json>, reference: seq<Json>)
    ensures ReorderScalars(items, reference) == Matched(multiset(items), reference) + Unmatched(multiset(reference), items)
    decreases |reference|
  {
    hide ReorderScalars, Matched, Unmatched, Without;
    if reference == [] {
      ReorderByNothing(items);
    } else {
      var first, rest := reference[0], reference[1..];
      assert reference == [first] + rest;
      ReorderStep(items, first, rest);
      if first in items {
        PresentStep(items, first, rest);
        ScalarsInOrder(Without(items, first), rest);
      } else {
        AbsentStep(items, first, rest);
        ScalarsInOrder(items, rest);
      }
    }
  }

  // ----- Members: lemmas -----

  lemma LookupAt(members: seq<Member>, i: nat)
    requires DistinctKeys(members) && i < |members|
    ensures HasOwn(members, members[i].key) && Lookup(members, members[i].key) == members[i].value
  {
  }

  lemma {:induction false} LookupConcat(a: seq<Member>, b: seq<Member>, key: string)
    ensures HasOwn(a + b, key) <==> HasOwn(a, key) || HasOwn(b, key)
    ensures HasOwn(a + b, key) ==> Lookup(a + b, key) == if HasOwn(a, key) then Lookup(a, key) else Lookup(b, key)
  {
    assert HasOwn(b, key) ==> HasOwn(a + b, key) by {
      if i :| 0 <= i < |b| && b[i].key == key {
        assert (a + b)[|a| + i].key == key;
      }
    }
    assert HasOwn(a, key) ==> HasOwn(a + b, key) by {
      if i :| 0 <= i < |a| && a[i].key == key {
        assert (a + b)[i].key == key;
      }
    }
    if a == [] {
      assert a + b == b;
    } else {
      assert (a + b)[1..] == a[1..] + b;
      LookupConcat(a[1..], b, key);
      HasOwnRest(a, key);
      HasOwnRest(a + b, key);
    }
  }

  lemma HasOwnRest(members: seq<Member>, key: string)
    requires members != []
    ensures HasOwn(members, key) <==> members[0].key == key || HasOwn(members[1..], key)
  {
    assert forall i | 1 <= i < |members| :: members[1..][i - 1] == members[i];
  }

  /** Which keys the referenced part has, and with which values. */
  lemma {:induction false} ReferencedMembers(value: Json, reference: seq<Member>, key: string)
    requires value.Object? && DistinctKeys(reference)
    ensures HasOwn(Referenced(value, reference), key) <==> HasOwn(value.members, key) && HasOwn(reference, key)
    ensures HasOwn(value.members, key) && HasOwn(reference, key) ==>
              Lookup(Referenced(value, reference), key) == Reorder(Lookup(value.members, key), Some(Lookup(reference, key)))
    decreases |reference|
  {
    if reference != [] {
      var r := reference[0];
      var head := if HasOwn(value.members, r.key) then [Member(r.key, Reorder(Lookup(value.members, r.key), Some(r.value)))] else [];
      ReferencedMembers(value, reference[1..], key);
      HasOwnRest(reference, key);
      LookupConcat(head, Referenced(value, reference[1..]), key);
    }
  }

  lemma {:induction false} UnreferencedMembers(value: Json, members: seq<Member>, reference: seq<Member>, key: string)
    requires value.Object? && forall i | 0 <= i < |members| :: members[i] in value.members
    ensures HasOwn(Unreferenced(value, members, reference), key) <==> HasOwn(members, key) && !HasOwn(reference, key)
    ensures HasOwn(members, key) && !HasOwn(reference, key) ==>
              Lookup(Unreferenced(value, members, reference), key) == Reorder(Lookup(members, key), None)
    decreases |members|
  {
    if members != [] {
      var m := members[0];
      var head := if HasOwn(reference, m.key) then [] else [Member(m.key, Reorder(m.value, None))];
      UnreferencedMembers(value, members[1..], reference, key);
      HasOwnRest(members, key);
      LookupConcat(head, Unreferenced(value, members[1..], reference), key);
    }
  }

  predicate ValidReference(reference: Option<Json>) {
    reference.Some? ==> Valid(reference.value)
  }

  /** A reordered object has the same keys, each with its value reordered by the reference's value for that key. */
  lemma ReorderedMembers(value: Json, reference: Option<Json>, key: string)
    requires value.Object? && Valid(value) && ValidReference(reference)
    ensures LookupOption(Reorder(value, reference).members, key)
            == if HasOwn(value.members, key)
               then Some(Reorder(Lookup(value.members, key), LookupOption(ReferenceMembers(reference), key))) else None
  {
    var r := ReferenceMembers(reference);
    ReferencedMembers(value, r, key);
    UnreferencedMembers(value, value.members, r, key);
    LookupConcat(Referenced(value, r), Unreferenced(value, value.members, r), key);
  }

  /** Both keys are there, the one before the other. */
  predicate Before(members: seq<Member>, first: string, second: string) {
    exists p, q | 0 <= p < q < |members| :: members[p].key == first && members[q].key == second
  }

  lemma BeforeInRest(members: seq<Member>, first: string, second: string)
    requires members != []
    ensures Before(members[1..], first, second) ==> Before(members, first, second)
    ensures members[0].key == first && HasOwn(members[1..], second) ==> Before(members, first, second)
  {
    if p, q :| 0 <= p < q < |members[1..]| && members[1..][p].key == first && members[1..][q].key == second {
      assert members[p + 1].key == first && members[q + 1].key == second;
    }
    if q :| 0 <= q < |members[1..]| && members[1..][q].key == second {
      assert members[q + 1].key == second;
    }
  }

  lemma {:induction false} ReferencedInOrder(value: Json, reference: seq<Member>, i: nat, j: nat)
    requires value.Object? && DistinctKeys(reference) && i < j < |Referenced(value, reference)|
    ensures Before(reference, Referenced(value, reference)[i].key, Referenced(value, reference)[j].key)
    decreases |reference|
  {
    var rest := Referenced(value, reference[1..]);
    var shift := if HasOwn(value.members, reference[0].key) then 1 else 0;
    var first, second := Referenced(value, reference)[i].key, Referenced(value, reference)[j].key;
    BeforeInRest(reference, first, second);
    if i >= shift {
      ReferencedInOrder(value, reference[1..], i - shift, j - shift);
    } else {
      assert rest[j - 1].key == second;
      ReferencedMembers(value, reference[1..], second);
    }
  }

  lemma {:induction false} UnreferencedInOrder(value: Json, members: seq<Member>, reference: seq<Member>, i: nat, j: nat)
    requires value.Object? && forall k | 0 <= k < |members| :: members[k] in value.members
    requires i < j < |Unreferenced(value, members, reference)|
    ensures Before(members, Unreferenced(value, members, reference)[i].key, Unreferenced(value, members, reference)[j].key)
    decreases |members|
  {
    var rest := Unreferenced(value, members[1..], reference);
    var shift := if HasOwn(reference, members[0].key) then 0 else 1;
    var first, second := Unreferenced(value, members, reference)[i].key, Unreferenced(value, members, reference)[j].key;
    BeforeInRest(members, first, second);
    if i >= shift {
      UnreferencedInOrder(value, members[1..], reference, i - shift, j - shift);
    } else {
      assert rest[j - 1].key == second;
      UnreferencedMembers(value, members[1..], reference, second);
    }
  }

  /** A reordered object has the keys that the reference has first, in the reference's order, and the others after them, in their own. */
  lemma ReorderedInOrder(value: Json, reference: Option<Json>, i: nat, j: nat)
    requires value.Object? && Valid(value) && ValidReference(reference) && i < j < |Reorder(value, reference).members|
    ensures var first, second := Reorder(value, reference).members[i].key, Reorder(value, reference).members[j].key;
            if HasOwn(ReferenceMembers(reference), second) then Before(ReferenceMembers(reference), first, second)
            else HasOwn(ReferenceMembers(reference), first) || Before(value.members, first, second)
  {
    hide Referenced, Unreferenced, Before, Lookup;
    var r := ReferenceMembers(reference);
    var referenced, others := Referenced(value, r), Unreferenced(value, value.members, r);
    var first, second := Reorder(value, reference).members[i].key, Reorder(value, reference).members[j].key;
    ReferencedMembers(value, r, first);
    UnreferencedMembers(value, value.members, r, second);
    if j < |referenced| {
      ReferencedInOrder(value, r, i, j);
      assert HasOwn(r, second) by {
        ReferencedMembers(value, r, second);
      }
    } else {
      assert others[j - |referenced|].key == second;
      if |referenced| <= i {
        UnreferencedInOrder(value, value.members, r, i - |referenced|, j - |referenced|);
      }
    }
  }

  lemma {:induction false} ReferencedDistinct(value: Json, reference: seq<Member>)
    requires value.Object? && DistinctKeys(reference)
    ensures DistinctKeys(Referenced(value, reference))
    decreases |reference|
  {
    if reference != [] {
      ReferencedDistinct(value, reference[1..]);
      ReferencedMembers(value, reference[1..], reference[0].key);
      DistinctHead(Referenced(value, reference[1..]), reference[0].key);
    }
  }

  lemma DistinctHead(members: seq<Member>, key: string)
    ensures DistinctKeys(members) && !HasOwn(members, key) ==> forall v :: DistinctKeys([Member(key, v)] + members)
  {
  }

  lemma {:induction false} UnreferencedDistinct(value: Json, members: seq<Member>, reference: seq<Member>)
    requires value.Object? && DistinctKeys(members) && forall i | 0 <= i < |members| :: members[i] in value.members
    ensures DistinctKeys(Unreferenced(value, members, reference))
    decreases |members|
  {
    if members != [] {
      UnreferencedDistinct(value, members[1..], reference);
      UnreferencedMembers(value, members[1..], reference, members[0].key);
      assert !HasOwn(members[1..], members[0].key);
      DistinctHead(Unreferenced(value, members[1..], reference), members[0].key);
    }
  }

  lemma DistinctConcat(a: seq<Member>, b: seq<Member>)
    requires DistinctKeys(a) && DistinctKeys(b) && forall key :: !(HasOwn(a, key) && HasOwn(b, key))
    ensures DistinctKeys(a + b)
  {
    forall i, j | 0 <= i < |a| && 0 <= j < |b|
      ensures a[i].key != b[j].key
    {
      assert HasOwn(a, a[i].key) && HasOwn(b, b[j].key);
    }
  }

  lemma ReorderedDistinct(value: Json, reference: Option<Json>)
    requires value.Object? && Valid(value) && ValidReference(reference)
    ensures DistinctKeys(Reorder(value, reference).members)
  {
    var r := ReferenceMembers(reference);
    ReferencedDistinct(value, r);
    UnreferencedDistinct(value, value.members, r);
    forall key: string
      ensures !(HasOwn(Referenced(value, r), key) && HasOwn(Unreferenced(value, value.members, r), key))
    {
      ReferencedMembers(value, r, key);
      UnreferencedMembers(value, value.members, r, key);
    }
    DistinctConcat(Referenced(value, r), Unreferenced(value, value.members, r));
  }

  lemma ReorderKeepsLeaves(value: Json, reference: Option<Json>)
    ensures Reorder(value, reference).Leaf? == value.Leaf?
    ensures value.Array? ==> Reorder(value, reference).Array?
  {
  }

  lemma ReferencesAreValid(reference: Option<Json>, index: nat, key: string)
    requires ValidReference(reference)
    ensures ValidReference(ItemReference(reference, index))
    ensures ValidReference(LookupOption(ReferenceMembers(reference), key))
  {
    var r := ReferenceMembers(reference);
    if HasOwn(r, key) {
      var i :| 0 <= i < |r| && r[i] == Member(key, Lookup(r, key));
      assert Valid(r[i].value);
    }
  }

  // ----- Main results -----

  lemma ScalarArrayMeaning(items: seq<Json>, reference: seq<Json>)
    requires IsScalarArray(items)
    ensures IsScalarArray(ReorderScalars(items, reference))
    ensures SameMeaning(Array(ReorderScalars(items, reference)), Array(items))
  {
    ScalarsKept(items, reference);
    SameElements(ReorderScalars(items, reference), items);
    var result := ReorderScalars(items, reference);
    forall i | 0 <= i < |result|
      ensures result[i].Leaf?
    {
      assert result[i] in result;
    }
  }

  /** Reordering keeps the meaning: the same tree, up to member order and the order of scalar arrays. */
  lemma {:induction false} ReorderKeepsMeaning(value: Json, reference: Option<Json>)
    requires Valid(value) && ValidReference(reference)
    ensures SameMeaning(Reorder(value, reference), value)
    decreases value
  {
    match value
    case Leaf(_) =>
    case Array(items) =>
      if BothScalarArrays(value, reference) {
        ScalarArrayMeaning(items, reference.value.items);
      } else {
        ItemsKeepMeaning(items, reference);
      }
    case Object(members) =>
      var result := Reorder(value, reference).members;
      ReorderedDistinct(value, reference);
      forall i | 0 <= i < |result|
        ensures HasOwn(members, result[i].key) && SameMeaning(result[i].value, Lookup(members, result[i].key))
      {
        var key := result[i].key;
        LookupAt(result, i);
        ReorderedMembers(value, reference, key);
        ReferencesAreValid(reference, 0, key);
        var j :| 0 <= j < |members| && members[j] == Member(key, Lookup(members, key));
        ReorderKeepsMeaning(members[j].value, LookupOption(ReferenceMembers(reference), key));
      }
      forall i | 0 <= i < |members|
        ensures HasOwn(result, members[i].key)
      {
        LookupAt(members, i);
        ReorderedMembers(value, reference, members[i].key);
      }
  }

  lemma {:induction false} ItemsKeepMeaning(items: seq<Json>, reference: Option<Json>)
    requires Valid(Array(items)) && ValidReference(reference) && !BothScalarArrays(Array(items), reference)
    ensures SameMeaning(Reorder(Array(items), reference), Array(items))
    decreases items
  {
    var result := Reorder(Array(items), reference).items;
    forall i | 0 <= i < |items|
      ensures SameMeaning(result[i], items[i]) && result[i].Leaf? == items[i].Leaf?
      ensures items[i].Leaf? ==> result[i] == items[i]
    {
      ReferencesAreValid(reference, i, "");
      ReorderKeepsMeaning(items[i], ItemReference(reference, i));
    }
    if IsScalarArray(items) {
      assert result == items;
    }
  }

  // ----- Reordering twice -----

  lemma {:induction false} UnreferencedConcat(value: Json, a: seq<Member>, b: seq<Member>, reference: seq<Member>)
    requires value.Object? && forall i | 0 <= i < |a + b| :: (a + b)[i] in value.members
    requires forall i | 0 <= i < |a| :: a[i] in value.members
    requires forall i | 0 <= i < |b| :: b[i] in value.members
    ensures Unreferenced(value, a + b, reference) == Unreferenced(value, a, reference) + Unreferenced(value, b, reference)
    decreases |a|
  {
    if a == [] {
      assert a + b == b;
    } else {
      assert (a + b)[1..] == a[1..] + b;
      UnreferencedConcat(value, a[1..], b, reference);
    }
  }

  lemma {:induction false} NothingUnreferenced(value: Json, members: seq<Member>, reference: seq<Member>)
    requires value.Object? && forall i | 0 <= i < |members| :: members[i] in value.members && HasOwn(reference, members[i].key)
    ensures Unreferenced(value, members, reference) == []
    decreases |members|
  {
    if members != [] {
      NothingUnreferenced(value, members[1..], reference);
    }
  }

  /** The members without a reference stay as they are, once reordering each of them again changes nothing. */
  lemma {:induction false} UnreferencedAgain(again: Json, members: seq<Member>, reference: seq<Member>)
    requires again.Object? && forall i | 0 <= i < |members| :: members[i] in again.members
    requires forall i | 0 <= i < |members| :: !HasOwn(reference, members[i].key) && Reorder(members[i].value, None) == members[i].value
    ensures Unreferenced(again, members, reference) == members
    decreases |members|
  {
    if members != [] {
      UnreferencedAgain(again, members[1..], reference);
    }
  }

  /** The referenced part depends only on what the object has for the reference's keys. */
  lemma {:induction false} ReferencedAgain(value: Json, again: Json, reference: seq<Member>)
    requires value.Object? && again.Object?
    requires forall i | 0 <= i < |reference| ::
               && HasOwn(again.members, reference[i].key) == HasOwn(value.members, reference[i].key)
               && (HasOwn(value.members, reference[i].key) ==>
                     Reorder(Lookup(again.members, reference[i].key), Some(reference[i].value))
                     == Reorder(Lookup(value.members, reference[i].key), Some(reference[i].value)))
    ensures Referenced(again, reference) == Referenced(value, reference)
    decreases |reference|
  {
    if reference != [] {
      ReferencedAgain(value, again, reference[1..]);
    }
  }

  lemma {:induction false} UnreferencedValues(value: Json, members: seq<Member>, reference: seq<Member>)
    requires value.Object? && forall i | 0 <= i < |members| :: members[i] in value.members
    ensures forall m | m in Unreferenced(value, members, reference) ::
              !HasOwn(reference, m.key) && exists n | n in members :: m.key == n.key && m.value == Reorder(n.value, None)
    decreases |members|
  {
    if members != [] {
      UnreferencedValues(value, members[1..], reference);
    }
  }

  /** Reordering again by the same reference changes nothing. */
  lemma {:induction false} ReorderIsIdempotent(value: Json, reference: Option<Json>)
    requires Valid(value) && ValidReference(reference)
    ensures Reorder(Reorder(value, reference), reference) == Reorder(value, reference)
    decreases value
  {
    match value
    case Leaf(_) =>
    case Array(items) =>
      if BothScalarArrays(value, reference) {
        ScalarArrayMeaning(items, reference.value.items);
        ScalarsIdempotent(items, reference.value.items);
      } else {
        ItemsIdempotent(items, reference);
      }
    case Object(members) =>
      var r := ReferenceMembers(reference);
      forall i | 0 <= i < |members|
        ensures Reorder(Reorder(members[i].value, LookupOption(r, members[i].key)), LookupOption(r, members[i].key))
                == Reorder(members[i].value, LookupOption(r, members[i].key))
      {
        ReferencesAreValid(reference, 0, members[i].key);
        ReorderIsIdempotent(members[i].value, LookupOption(r, members[i].key));
      }
      ReferencedIdempotent(value, reference);
      UnreferencedIdempotent(value, reference);
  }

  ghost predicate MembersIdempotent(value: Json, reference: Option<Json>)
    requires value.Object?
  {
    var r := ReferenceMembers(reference);
    forall i | 0 <= i < |value.members| ::
      Reorder(Reorder(value.members[i].value, LookupOption(r, value.members[i].key)), LookupOption(r, value.members[i].key))
      == Reorder(value.members[i].value, LookupOption(r, value.members[i].key))
  }

  lemma ReferencedIdempotent(value: Json, reference: Option<Json>)
    requires value.Object? && Valid(value) && ValidReference(reference) && MembersIdempotent(value, reference)
    ensures Referenced(Reorder(value, reference), ReferenceMembers(reference)) == Referenced(value, ReferenceMembers(reference))
  {
    var again, r := Reorder(value, reference), ReferenceMembers(reference);
    forall i | 0 <= i < |r|
      ensures HasOwn(again.members, r[i].key) == HasOwn(value.members, r[i].key)
      ensures HasOwn(value.members, r[i].key) ==>
                Reorder(Lookup(again.members, r[i].key), Some(r[i].value)) == Reorder(Lookup(value.members, r[i].key), Some(r[i].value))
    {
      ReorderedMembers(value, reference, r[i].key);
      LookupAt(r, i);
      if HasOwn(value.members, r[i].key) {
        var j :| 0 <= j < |value.members| && value.members[j] == Member(r[i].key, Lookup(value.members, r[i].key));
      }
    }
    ReferencedAgain(value, again, r);
  }

  lemma UnreferencedIdempotent(value: Json, reference: Option<Json>)
    requires value.Object? && Valid(value) && ValidReference(reference) && MembersIdempotent(value, reference)
    ensures var again, r := Reorder(value, reference), ReferenceMembers(reference);
            Unreferenced(again, again.members, r) == Unreferenced(value, value.members, r)
  {
    var again, r := Reorder(value, reference), ReferenceMembers(reference);
    var first, second := Referenced(value, r), Unreferenced(value, value.members, r);
    forall i | 0 <= i < |second|
      ensures !HasOwn(r, second[i].key) && Reorder(second[i].value, None) == second[i].value
    {
      UnreferencedValues(value, value.members, r);
      assert second[i] in second;
      var n :| n in value.members && second[i].key == n.key && second[i].value == Reorder(n.value, None);
      var j :| 0 <= j < |value.members| && value.members[j] == n;
      assert LookupOption(r, n.key) == None;
    }
    forall i | 0 <= i < |first|
      ensures HasOwn(r, first[i].key)
    {
      assert HasOwn(first, first[i].key);
      ReferencedMembers(value, r, first[i].key);
    }
    UnreferencedConcat(again, first, second, r);
    NothingUnreferenced(again, first, r);
    UnreferencedAgain(again, second, r);
  }

  lemma {:induction false} ItemsIdempotent(items: seq<Json>, reference: Option<Json>)
    requires Valid(Array(items)) && ValidReference(reference) && !BothScalarArrays(Array(items), reference)
    ensures Reorder(Reorder(Array(items), reference), reference) == Reorder(Array(items), reference)
    decreases items
  {
    var result := Reorder(Array(items), reference).items;
    forall i | 0 <= i < |items|
      ensures result[i].Leaf? == items[i].Leaf?
      ensures Reorder(result[i], ItemReference(reference, i)) == result[i]
    {
      ReferencesAreValid(reference, i, "");
      ReorderKeepsLeaves(items[i], ItemReference(reference, i));
      ReorderIsIdempotent(items[i], ItemReference(reference, i));
    }
    assert IsScalarArray(result) == IsScalarArray(items);
    assert Reorder(Array(result), reference).items == result;
  }

  // ----- Reordering by an equivalent reference -----

  lemma {:induction false} ReferencedBecomes(value: Json, reference: seq<Member>)
    requires value.Object?
    requires forall i | 0 <= i < |reference| ::
               && HasOwn(value.members, reference[i].key)
               && Reorder(Lookup(value.members, reference[i].key), Some(reference[i].value)) == reference[i].value
    ensures Referenced(value, reference) == reference
    decreases |reference|
  {
    if reference != [] {
      ReferencedBecomes(value, reference[1..]);
    }
  }

  lemma ObjectBecomes(value: Json, reference: Json)
    requires value.Object? && reference.Object? && SameMeaning(value, reference)
    requires forall i | 0 <= i < |reference.members| ::
               && HasOwn(value.members, reference.members[i].key)
               && Reorder(Lookup(value.members, reference.members[i].key), Some(reference.members[i].value)) == reference.members[i].value
    ensures Reorder(value, Some(reference)) == reference
  {
    ReferencedBecomes(value, reference.members);
    NothingUnreferenced(value, value.members, reference.members);
    assert reference.members + [] == reference.members;
  }

  lemma ItemsBecome(value: Json, reference: Json)
    requires value.Array? && reference.Array? && |value.items| == |reference.items| && !IsScalarArray(value.items)
    requires forall i | 0 <= i < |value.items| :: Reorder(value.items[i], Some(reference.items[i])) == reference.items[i]
    ensures Reorder(value, Some(reference)) == reference
  {
    assert Reorder(value, Some(reference)).items == reference.items;
  }

  /** A value with the reference's meaning becomes the reference itself. */
  lemma {:induction false} EquivalentBecomesReference(value: Json, reference: Json)
    requires Valid(value) && Valid(reference) && SameMeaning(value, reference)
    ensures Reorder(value, Some(reference)) == reference
    decreases value
  {
    match value
    case Leaf(_) =>
    case Array(items) =>
      if IsScalarArray(items) {
        ScalarsBecomeReference(items, reference.items);
      } else {
        forall i | 0 <= i < |items|
          ensures Reorder(items[i], Some(reference.items[i])) == reference.items[i]
        {
          EquivalentBecomesReference(items[i], reference.items[i]);
        }
        ItemsBecome(value, reference);
      }
    case Object(members) =>
      var r := reference.members;
      forall i | 0 <= i < |r|
        ensures HasOwn(members, r[i].key) && Reorder(Lookup(members, r[i].key), Some(r[i].value)) == r[i].value
      {
        var j := EquivalentMember(members, r, i);
        EquivalentBecomesReference(members[j].value, r[i].value);
      }
      ObjectBecomes(value, reference);
  }

  /** The member of an equivalent object that corresponds to a reference member. */
  lemma EquivalentMember(members: seq<Member>, reference: seq<Member>, i: nat) returns (j: nat)
    requires Valid(Object(members)) && Valid(Object(reference)) && SameMeaning(Object(members), Object(reference)) && i < |reference|
    ensures j < |members| && HasOwn(members, reference[i].key)
    ensures members[j] == Member(reference[i].key, Lookup(members, reference[i].key))
    ensures Valid(members[j].value) && Valid(reference[i].value) && SameMeaning(members[j].value, reference[i].value)
  {
    LookupAt(reference, i);
    j :| 0 <= j < |members| && members[j] == Member(reference[i].key, Lookup(members, reference[i].key));
  }

  // ----- The loops -----

  /** `reorderScalarArray`: takes each reference value out of a working copy, if it is there. */
  method ReorderScalarArray(values: seq<Json>, reference: seq<Json>) returns (result: seq<Json>)
    ensures result == ReorderScalars(values, reference)
  {
    var remaining, ordered: seq<Json> := values, [];
    var i := 0;
    while i < |reference|
      invariant i <= |reference|
      invariant ordered + ReorderScalars(remaining, reference[i..]) == ReorderScalars(values, reference)
    {
      assert reference[i..][1..] == reference[i + 1..];
      if reference[i] in remaining {
        var index := 0;
        while remaining[index] != reference[i]
          invariant index < |remaining|
          invariant reference[i] !in remaining[..index]
          decreases |remaining| - index
        {
          index := index + 1;
          assert remaining[..index] == remaining[..index - 1] + [remaining[index - 1]];
          assert remaining == remaining[..index] + remaining[index..];
        }
        FirstIndex(remaining, reference[i], index);
        ordered := ordered + [remaining[index]];
        remaining := remaining[..index] + remaining[index + 1..];
      }
      i := i + 1;
    }
    result := ordered + remaining;
  }

  lemma {:induction false} FirstIndex(items: seq<Json>, item: Json, index: nat)
    requires index < |items| && items[index] == item && item !in items[..index]
    ensures IndexOf(items, item) == index
  {
    if index > 0 {
      assert items[0] in items[..index];
      assert items[1..][..index - 1] == items[..index][1..];
      FirstIndex(items[1..], item, index - 1);
    }
  }

  method ReorderJsonLike(value: Json, reference: Option<Json>) returns (result: Json)
    requires Valid(value) && ValidReference(reference)
    ensures result == Reorder(value, reference)
    decreases value, 1
  {
    match value
    case Leaf(_) => result := value;
    case Array(items) =>
      var reordered: seq<Json>;
      if BothScalarArrays(value, reference) {
        reordered := ReorderScalarArray(items, reference.value.items);
      } else {
        reordered := ReorderItems(value, reference);
      }
      result := Array(reordered);
    case Object(_) =>
      var first := ReorderReferenced(value, ReferenceMembers(reference));
      var ordered := AppendUnreferenced(value, ReferenceMembers(reference), first);
      result := Object(ordered);
  }

  method ReorderItems(value: Json, reference: Option<Json>) returns (mapped: seq<Json>)
    requires value.Array? && Valid(value) && ValidReference(reference)
    ensures mapped == seq(|value.items|, i requires 0 <= i < |value.items| => Reorder(value.items[i], ItemReference(reference, i)))
    decreases value, 0
  {
    mapped := [];
    var i := 0;
    while i < |value.items|
      invariant i <= |value.items| && |mapped| == i
      invariant forall k | 0 <= k < i :: mapped[k] == Reorder(value.items[k], ItemReference(reference, k))
    {
      ReferencesAreValid(reference, i, "");
      var item := ReorderJsonLike(value.items[i], ItemReference(reference, i));
      mapped := mapped + [item];
      i := i + 1;
    }
  }

  lemma ReferencedEnds(value: Json, reference: seq<Member>)
    requires value.Object?
    ensures Referenced(value, reference[|reference|..]) == [] && reference[0..] == reference
  {
  }

  lemma ReferencedStep(value: Json, reference: seq<Member>, i: nat, ordered: seq<Member>)
    requires value.Object? && i < |reference|
    ensures var key := reference[i].key;
            var added := if HasOwn(value.members, key)
                         then [Member(key, Reorder(Lookup(value.members, key), Some(reference[i].value)))] else [];
            ordered + Referenced(value, reference[i..]) == (ordered + added) + Referenced(value, reference[i + 1..])
  {
    assert reference[i..][1..] == reference[i + 1..];
  }

  /** The first loop over an object: the reference's keys that the value has. */
  method ReorderReferenced(value: Json, reference: seq<Member>) returns (ordered: seq<Member>)
    requires value.Object? && Valid(value) && Valid(Object(reference))
    ensures ordered == Referenced(value, reference)
    decreases value, 0
  {
    hide Referenced, Reorder;
    ordered := [];
    var i := 0;
    ReferencedEnds(value, reference);
    while i < |reference|
      invariant i <= |reference|
      invariant ordered + Referenced(value, reference[i..]) == Referenced(value, reference)
    {
      ReferencedStep(value, reference, i, ordered);
      if HasOwn(value.members, reference[i].key) {
        var j :| 0 <= j < |value.members| && value.members[j] == Member(reference[i].key, Lookup(value.members, reference[i].key));
        var item := ReorderJsonLike(value.members[j].value, Some(reference[i].value));
        ordered := ordered + [Member(reference[i].key, item)];
      }
      i := i + 1;
    }
  }

  /** Before the second loop reaches a key, the object under construction has it exactly if the reference does. */
  lemma OrderedHasOwn(value: Json, reference: seq<Member>, i: nat)
    requires value.Object? && Valid(value) && Valid(Object(reference)) && i < |value.members|
    requires forall k | 0 <= k < i :: value.members[..i][k] in value.members
    ensures var ordered := Referenced(value, reference) + Unreferenced(value, value.members[..i], reference);
            HasOwn(ordered, value.members[i].key) <==> HasOwn(reference, value.members[i].key)
  {
    var key := value.members[i].key;
    ReferencedMembers(value, reference, key);
    UnreferencedMembers(value, value.members[..i], reference, key);
    LookupConcat(Referenced(value, reference), Unreferenced(value, value.members[..i], reference), key);
    LookupAt(value.members, i);
  }

  /** The second loop: the members that are not there yet. */
  method AppendUnreferenced(value: Json, reference: seq<Member>, first: seq<Member>) returns (ordered: seq<Member>)
    requires value.Object? && Valid(value) && Valid(Object(reference)) && first == Referenced(value, reference)
    ensures ordered == first + Unreferenced(value, value.members, reference)
    decreases value, 0
  {
    ordered := first;
    var i := 0;
    while i < |value.members|
      invariant i <= |value.members|
      invariant forall k | 0 <= k < i :: value.members[..i][k] in value.members
      invariant ordered == first + Unreferenced(value, value.members[..i], reference)
    {
      var m := value.members[i];
      OrderedHasOwn(value, reference, i);
      assert value.members[..i + 1] == value.members[..i] + [m];
      UnreferencedConcat(value, value.members[..i], [m], reference);
      if !HasOwn(ordered, m.key) {
        var item := ReorderJsonLike(m.value, LookupOption(reference, m.key));
        ordered := ordered + [Member(m.key, item)];
      }
      i := i + 1;
    }
    assert value.members[..i] == value.members;
  }
}
