/**
 * `clone_objekt_in_list` (src/concurrency/molecule_objekt.rs): the engine's
 * registry of named shared objects, searched by name with a type check. The
 * registry is a sequence of objects; `nameOf` is `MoleculeObjekt::name` and
 * `downcast` is `downcast_ref::<A>` followed by `clone_box` (Some of a copy
 * when the object has type A, None otherwise).
 */
module MoleculeObjekt {
  import opened Wrappers

  /** Position i holds the first object named `name`. */
  ghost predicate FirstNamedAt<O>(list: seq<O>, name: string, nameOf: O -> string, i: int)
  {
    0 <= i < |list| && nameOf(list[i]) == name && forall k :: 0 <= k < i ==> nameOf(list[k]) != name
  }

  /**
   * The scan returns at the first object whose name matches: the downcast
   * copy of that object, so None when it has another type; None when no
   * object has the name.
   */
  function CloneObjektInList<O, A>(list: seq<O>, name: string, nameOf: O -> string, downcast: O -> Option<A>): (r: Option<A>)
    ensures (forall i :: 0 <= i < |list| ==> nameOf(list[i]) != name) ==> r == None
    ensures forall i :: FirstNamedAt(list, name, nameOf, i) ==> r == downcast(list[i])
    decreases |list|
  {
    if |list| == 0 then None
    else if nameOf(list[0]) == name then downcast(list[0])
    else
      var r := CloneObjektInList(list[1..], name, nameOf, downcast);
      assert forall i :: FirstNamedAt(list, name, nameOf, i) ==> i > 0 && FirstNamedAt(list[1..], name, nameOf, i - 1) by {
        forall i | FirstNamedAt(list, name, nameOf, i)
          ensures i > 0 && FirstNamedAt(list[1..], name, nameOf, i - 1)
        {
          forall k | 0 <= k < i - 1
            ensures nameOf(list[1..][k]) != name
          {
            assert list[1..][k] == list[k + 1];
          }
        }
      }
      r
  }

  /**
   * The result is decided by the first object with the name, and only by it:
   * Some result is the downcast of that object; None means there is no such
   * object or it has another type.
   */
  lemma FirstMatchDecides<O, A>(list: seq<O>, name: string, nameOf: O -> string, downcast: O -> Option<A>)
    ensures var r := CloneObjektInList(list, name, nameOf, downcast);
      && (r.Some? ==> exists i :: FirstNamedAt(list, name, nameOf, i) && downcast(list[i]) == r)
      && (r.None? <==>
           (forall i :: 0 <= i < |list| ==> nameOf(list[i]) != name)
           || exists i :: FirstNamedAt(list, name, nameOf, i) && downcast(list[i]).None?)
  {
    if exists j :: 0 <= j < |list| && nameOf(list[j]) == name {
      var i := FirstIndexNamed(list, name, nameOf);
      assert FirstNamedAt(list, name, nameOf, i);
      forall i' | FirstNamedAt(list, name, nameOf, i')
        ensures i' == i
      {
      }
    }
  }

  /** Some object carries the name, so there is a first one. */
  lemma {:induction false} FirstIndexNamed<O>(list: seq<O>, name: string, nameOf: O -> string) returns (i: nat)
    requires exists j :: 0 <= j < |list| && nameOf(list[j]) == name
    ensures FirstNamedAt(list, name, nameOf, i)
    decreases |list|
  {
    if nameOf(list[0]) == name {
      i := 0;
    } else {
      var j :| 0 <= j < |list| && nameOf(list[j]) == name;
      assert nameOf(list[1..][j - 1]) == name;
      var i' := FirstIndexNamed(list[1..], name, nameOf);
      i := i' + 1;
      forall k | 0 <= k < i
        ensures nameOf(list[k]) != name
      {
        if k > 0 {
          assert list[k] == list[1..][k - 1];
        }
      }
    }
  }

  /** Objects after the first one with the name are never consulted. */
  lemma {:induction false} LaterObjectsIgnored<O, A>(list: seq<O>, rest: seq<O>, name: string, nameOf: O -> string, downcast: O -> Option<A>)
    requires exists j :: 0 <= j < |list| && nameOf(list[j]) == name
    ensures CloneObjektInList(list + rest, name, nameOf, downcast) == CloneObjektInList(list, name, nameOf, downcast)
    decreases |list|
  {
    if nameOf(list[0]) != name {
      var j :| 0 <= j < |list| && nameOf(list[j]) == name;
      assert nameOf(list[1..][j - 1]) == name;
      assert (list + rest)[1..] == list[1..] + rest;
      LaterObjectsIgnored(list[1..], rest, name, nameOf, downcast);
    }
  }
}
