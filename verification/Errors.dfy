/** The errors of a measured run: which of them only invalidate visibility measurements. */
module Errors {
  import opened Basics

  datatype Err = Observation | Plain | Joined(causes: seq<Err>)

  // The errors that only invalidate visibility measurements.
  predicate ObservationOnly(e: Err) {
    match e
    case Observation => true
    case Plain => false
    case Joined(causes) => |causes| > 0 && forall i :: 0 <= i < |causes| ==> ObservationOnly(causes[i])
  }

  function NonNil(errs: seq<Option<Err>>): seq<Err> {
    if |errs| == 0 then [] else (if errs[0].Some? then [errs[0].value] else []) + NonNil(errs[1..])
  }

  function Join(errs: seq<Option<Err>>): Option<Err> {
    if |NonNil(errs)| == 0 then None else Some(Joined(NonNil(errs)))
  }

  ghost predicate Harmless(e: Option<Err>) {
    e.Some? ==> ObservationOnly(e.value)
  }

  lemma {:induction false} NonNilMembers(errs: seq<Option<Err>>)
    ensures forall e :: e in NonNil(errs) <==> Some(e) in errs
  {
    if |errs| > 0 {
      NonNilMembers(errs[1..]);
      assert errs == [errs[0]] + errs[1..];
    }
  }

  // A joined error is harmless exactly when each of its parts is.
  lemma {:induction false} JoinIsHarmless(errs: seq<Option<Err>>)
    ensures Harmless(Join(errs)) <==> forall i :: 0 <= i < |errs| ==> Harmless(errs[i])
  {
    NonNilMembers(errs);
    var list := NonNil(errs);
    if forall i :: 0 <= i < |errs| ==> Harmless(errs[i]) {
      forall i | 0 <= i < |list| ensures ObservationOnly(list[i]) {
        assert list[i] in list;
        var j :| 0 <= j < |errs| && errs[j] == Some(list[i]);
      }
    }
    if Harmless(Join(errs)) {
      forall i | 0 <= i < |errs| ensures Harmless(errs[i]) {
        if errs[i].Some? {
          assert errs[i].value in list;
        }
      }
    }
  }
}
