/**
  The props object a resolver is called with, given by its entries, and
  `propsWithoutUndefined`, which copies the entries whose value is not
  `undefined` into a fresh dictionary.
*/
module CvaProps {
  import opened JsValues

  /** The own entries of a props object, in the caller's key order; an object's keys are distinct. */
  type Props = p: seq<(string, ClassValue)> | DistinctKeys(p) witness []

  /** The object whose entries are `entries`, built by assigning them in order. */
  function ObjectOf(entries: seq<(string, ClassValue)>): map<string, ClassValue>
    decreases |entries|
  {
    if entries == [] then map[]
    else
      var last := entries[|entries| - 1];
      ObjectOf(entries[..|entries| - 1])[last.0 := last.1]
  }

  /**
    What `Object.entries(props).reduce(...)` leaves in its accumulator: each entry is
    visited in order and `acc[key] = value` runs unless the value is `undefined`.
  */
  function DefinedProps(entries: seq<(string, ClassValue)>): map<string, ClassValue>
    decreases |entries|
  {
    if entries == [] then map[]
    else
      var last := entries[|entries| - 1];
      var acc := DefinedProps(entries[..|entries| - 1]);
      if last.1 == Leaf(Undefined) then acc else acc[last.0 := last.1]
  }

  /** `propsWithoutUndefined`: the loop grows the accumulator one entry at a time. */
  method PropsWithoutUndefined(props: Props) returns (acc: map<string, ClassValue>)
    ensures acc == DefinedProps(props)
    ensures forall i :: 0 <= i < |props| && props[i].1 != Leaf(Undefined) ==>
      props[i].0 in acc && acc[props[i].0] == props[i].1
    ensures forall key :: key in acc ==> (key, acc[key]) in props && acc[key] != Leaf(Undefined)
  {
    acc := map[];
    var i := 0;
    while i < |props|
      invariant 0 <= i <= |props|
      invariant acc == DefinedProps(props[..i])
    {
      var (key, value) := props[i];
      assert props[..i + 1][..i] == props[..i];
      if value != Leaf(Undefined) {
        acc := acc[key := value];
      }
      i := i + 1;
    }
    assert props[..i] == props;
    DefinedPropsOfEntries(props);
  }

  lemma PrefixDistinct(entries: seq<(string, ClassValue)>, n: nat)
    requires DistinctKeys(entries) && n <= |entries|
    ensures DistinctKeys(entries[..n])
  {
  }

  /** Every key of the built object comes from an entry, and with distinct keys every entry is read back. */
  lemma {:induction false} ObjectOfEntries(entries: seq<(string, ClassValue)>)
    ensures forall key :: key in ObjectOf(entries) ==> (key, ObjectOf(entries)[key]) in entries
    ensures DistinctKeys(entries) ==> forall i :: 0 <= i < |entries| ==>
      entries[i].0 in ObjectOf(entries) && ObjectOf(entries)[entries[i].0] == entries[i].1
    decreases |entries|
  {
    if entries != [] {
      var n := |entries| - 1;
      var front := entries[..n];
      ObjectOfEntries(front);
      assert forall e :: e in front ==> e in entries;
      if DistinctKeys(entries) {
        PrefixDistinct(entries, n);
        forall i | 0 <= i < |entries|
          ensures entries[i].0 in ObjectOf(entries) && ObjectOf(entries)[entries[i].0] == entries[i].1
        {
          if i < n {
            assert front[i] == entries[i];
          }
        }
      }
    }
  }

  /** The entries kept are exactly those whose value is not `undefined`; `null` and `false` stay. */
  lemma {:induction false} DefinedPropsOfEntries(entries: seq<(string, ClassValue)>)
    ensures forall key :: key in DefinedProps(entries) ==>
      (key, DefinedProps(entries)[key]) in entries && DefinedProps(entries)[key] != Leaf(Undefined)
    ensures DistinctKeys(entries) ==> forall i :: 0 <= i < |entries| && entries[i].1 != Leaf(Undefined) ==>
      entries[i].0 in DefinedProps(entries) && DefinedProps(entries)[entries[i].0] == entries[i].1
    decreases |entries|
  {
    if entries != [] {
      var n := |entries| - 1;
      var front := entries[..n];
      DefinedPropsOfEntries(front);
      assert forall e :: e in front ==> e in entries;
      if DistinctKeys(entries) {
        PrefixDistinct(entries, n);
        forall i | 0 <= i < |entries| && entries[i].1 != Leaf(Undefined)
          ensures entries[i].0 in DefinedProps(entries) && DefinedProps(entries)[entries[i].0] == entries[i].1
        {
          if i < n {
            assert front[i] == entries[i];
          }
        }
      }
    }
  }

  /** On a props object, `propsWithoutUndefined` is the object with its `undefined`-valued keys removed. */
  lemma DefinedIsObjectWithoutUndefined(props: Props, key: string)
    ensures key in DefinedProps(props) <==> key in ObjectOf(props) && ObjectOf(props)[key] != Leaf(Undefined)
    ensures key in DefinedProps(props) ==> DefinedProps(props)[key] == ObjectOf(props)[key]
  {
    ObjectOfEntries(props);
    DefinedPropsOfEntries(props);
    if key in ObjectOf(props) {
      var i :| 0 <= i < |props| && props[i] == (key, ObjectOf(props)[key]);
    }
    if key in DefinedProps(props) {
      var i :| 0 <= i < |props| && props[i] == (key, DefinedProps(props)[key]);
    }
  }

  /** Every entry of `p1` being an entry of `p2` makes the object of `p1` part of the object of `p2`. */
  lemma ObjectOfIncluded(p1: Props, p2: Props)
    requires forall e :: e in p1 ==> e in p2
    ensures forall key :: key in ObjectOf(p1) ==> key in ObjectOf(p2) && ObjectOf(p2)[key] == ObjectOf(p1)[key]
  {
    ObjectOfEntries(p1);
    ObjectOfEntries(p2);
    forall key | key in ObjectOf(p1)
      ensures key in ObjectOf(p2) && ObjectOf(p2)[key] == ObjectOf(p1)[key]
    {
      var i :| 0 <= i < |p2| && p2[i] == (key, ObjectOf(p1)[key]);
    }
  }

  lemma DefinedPropsIncluded(p1: Props, p2: Props)
    requires forall e :: e in p1 ==> e in p2
    ensures forall key :: key in DefinedProps(p1) ==> key in DefinedProps(p2) && DefinedProps(p2)[key] == DefinedProps(p1)[key]
  {
    DefinedPropsOfEntries(p1);
    DefinedPropsOfEntries(p2);
    forall key | key in DefinedProps(p1)
      ensures key in DefinedProps(p2) && DefinedProps(p2)[key] == DefinedProps(p1)[key]
    {
      var i :| 0 <= i < |p2| && p2[i] == (key, DefinedProps(p1)[key]);
    }
  }

  /**
    Two props objects that list the same entries in any order are the same object,
    and `propsWithoutUndefined` gives the same dictionary for both.
  */
  lemma SameEntriesSameObject(p1: Props, p2: Props)
    requires forall e :: e in p1 <==> e in p2
    ensures ObjectOf(p1) == ObjectOf(p2)
    ensures DefinedProps(p1) == DefinedProps(p2)
  {
    ObjectOfIncluded(p1, p2);
    ObjectOfIncluded(p2, p1);
    DefinedPropsIncluded(p1, p2);
    DefinedPropsIncluded(p2, p1);
  }
}
