/**
  * How a capture stores id lists: as indices into the planned ids plus the ids
  * that were not planned, and how the auditor reads them back.
  */
module Populations {
  import opened Basics

  // Explicit lists, or indices and extras by list name.
  datatype Group =
    | Explicit(sets: map<string, seq<Id>>)
    | Indexed(indices: map<string, seq<int>>, extra: map<string, seq<Id>>)

  // ----- the encoder -----

  // Where each planned id stands.
  function LookupOf(planned: seq<Id>): (m: map<Id, nat>)
    ensures forall id :: id in m <==> id in planned
    ensures forall id :: id in m ==> m[id] < |planned| && planned[m[id]] == id
  {
    if |planned| == 0 then map[]
    else
      var init, last := planned[..|planned| - 1], planned[|planned| - 1];
      assert planned == init + [last];
      LookupOf(init)[last := |planned| - 1]
  }

  function IndicesOf(lookup: map<Id, nat>, ids: seq<Id>): seq<int> {
    if |ids| == 0 then []
    else
      var init, last := IndicesOf(lookup, ids[..|ids| - 1]), ids[|ids| - 1];
      if last in lookup then init + [lookup[last]] else init
  }

  function ExtrasOf(lookup: map<Id, nat>, ids: seq<Id>): seq<Id> {
    if |ids| == 0 then []
    else
      var init, last := ExtrasOf(lookup, ids[..|ids| - 1]), ids[|ids| - 1];
      if last in lookup then init else init + [last]
  }

  method EncodeList(lookup: map<Id, nat>, ids: seq<Id>) returns (indices: seq<int>, extra: seq<Id>)
    ensures indices == IndicesOf(lookup, ids) && extra == ExtrasOf(lookup, ids)
  {
    indices, extra := [], [];
    var i := 0;
    while i < |ids|
      invariant 0 <= i <= |ids|
      invariant indices == IndicesOf(lookup, ids[..i]) && extra == ExtrasOf(lookup, ids[..i])
    {
      assert ids[..i + 1][..i] == ids[..i];
      if ids[i] in lookup {
        indices := indices + [lookup[ids[i]]];
      } else {
        extra := extra + [ids[i]];
      }
      i := i + 1;
    }
    assert ids[..i] == ids;
  }

  // A name gets an entry in `extra` only when it has unplanned ids.
  ghost predicate Encodes(g: Group, planned: seq<Id>, sets: map<string, seq<Id>>) {
    match g
    case Explicit(all) => all == sets
    case Indexed(indices, extra) =>
      var lookup := LookupOf(planned);
      && indices.Keys == sets.Keys && extra.Keys <= sets.Keys
      && forall name :: name in sets ==>
           && indices[name] == IndicesOf(lookup, sets[name])
           && ExtrasOf(lookup, sets[name]) == if name in extra then extra[name] else []
  }

  method Encode(planned: seq<Id>, sets: map<string, seq<Id>>, explicit: bool) returns (g: Group)
    ensures Encodes(g, planned, sets) && g.Explicit? == explicit
  {
    if explicit {
      return Explicit(sets);
    }
    var lookup := LookupOf(planned);
    var indices: map<string, seq<int>>, extra: map<string, seq<Id>> := map[], map[];
    var todo := sets.Keys;
    while todo != {}
      invariant todo <= sets.Keys && indices.Keys == sets.Keys - todo && extra.Keys <= sets.Keys - todo
      invariant forall name :: name in sets && name !in todo ==>
                  && indices[name] == IndicesOf(lookup, sets[name])
                  && ExtrasOf(lookup, sets[name]) == if name in extra then extra[name] else []
      decreases todo
    {
      var name :| name in todo;
      var found, more := EncodeList(lookup, sets[name]);
      indices := indices[name := found];
      if |more| > 0 {
        extra := extra[name := more];
      }
      todo := todo - {name};
    }
    g := Indexed(indices, extra);
  }

  // ----- the auditor's decoder -----

  predicate InRange(planned: seq<Id>, indices: seq<int>) {
    forall i :: 0 <= i < |indices| ==> 0 <= indices[i] < |planned|
  }

  function Selected(planned: seq<Id>, indices: seq<int>): seq<Id>
    requires InRange(planned, indices)
  {
    seq(|indices|, i requires 0 <= i < |indices| => planned[indices[i]])
  }

  // None is the auditor's "index out of range".
  function Decoded(planned: seq<Id>, g: Group, name: string): Option<seq<Id>>
    requires g.Explicit? ==> name in g.sets
    requires g.Indexed? ==> name in g.indices
  {
    match g
    case Explicit(sets) => Some(sets[name])
    case Indexed(indices, extra) =>
      if InRange(planned, indices[name])
      then Some(Selected(planned, indices[name]) + if name in extra then extra[name] else [])
      else None
  }

  // ----- main results -----

  lemma {:induction false} IndicesInRange(planned: seq<Id>, ids: seq<Id>)
    ensures InRange(planned, IndicesOf(LookupOf(planned), ids))
  {
    if |ids| > 0 {
      IndicesInRange(planned, ids[..|ids| - 1]);
    }
  }

  lemma {:induction false} SelectedAppend(planned: seq<Id>, indices: seq<int>, i: int)
    requires InRange(planned, indices) && 0 <= i < |planned|
    ensures InRange(planned, indices + [i]) && Selected(planned, indices + [i]) == Selected(planned, indices) + [planned[i]]
  {
  }

  // Splitting a list and putting it back keeps every id as often as it was.
  lemma {:induction false} SplitKeepsIds(planned: seq<Id>, ids: seq<Id>)
    requires InRange(planned, IndicesOf(LookupOf(planned), ids))
    ensures multiset(Selected(planned, IndicesOf(LookupOf(planned), ids)) + ExtrasOf(LookupOf(planned), ids)) == multiset(ids)
    decreases |ids|
  {
    var lookup := LookupOf(planned);
    if |ids| > 0 {
      var init, last := ids[..|ids| - 1], ids[|ids| - 1];
      IndicesInRange(planned, init);
      SplitKeepsIds(planned, init);
      assert ids == init + [last];
      if last in lookup {
        SelectedAppend(planned, IndicesOf(lookup, init), lookup[last]);
      }
    }
  }

  // A list of planned ids comes back exactly, in its order.
  lemma {:induction false} PlannedComeBack(planned: seq<Id>, ids: seq<Id>)
    requires forall i :: 0 <= i < |ids| ==> ids[i] in planned
    ensures InRange(planned, IndicesOf(LookupOf(planned), ids))
    ensures Selected(planned, IndicesOf(LookupOf(planned), ids)) == ids && ExtrasOf(LookupOf(planned), ids) == []
    decreases |ids|
  {
    var lookup := LookupOf(planned);
    if |ids| > 0 {
      var init, last := ids[..|ids| - 1], ids[|ids| - 1];
      PlannedComeBack(planned, init);
      assert ids == init + [last];
      SelectedAppend(planned, IndicesOf(lookup, init), lookup[last]);
    }
  }

  // Whatever the lists: decoding never fails, gives back the same ids with
  // the same multiplicity, and the same list when every id was planned.
  lemma {:induction false} RoundTrip(planned: seq<Id>, sets: map<string, seq<Id>>, g: Group, name: string)
    requires Encodes(g, planned, sets) && name in sets
    ensures var back := Decoded(planned, g, name);
            && back.Some? && multiset(back.value) == multiset(sets[name])
            && ((forall i :: 0 <= i < |sets[name]| ==> sets[name][i] in planned) ==> back.value == sets[name])
  {
    if g.Indexed? {
      IndicesInRange(planned, sets[name]);
      SplitKeepsIds(planned, sets[name]);
      if forall i :: 0 <= i < |sets[name]| ==> sets[name][i] in planned {
        PlannedComeBack(planned, sets[name]);
      }
    }
  }
}
