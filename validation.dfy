/** The name check the add-level prompt applies to a new hierarchy level. */
module Validation {
  import opened Text

  /**
   * `isNameUnique(name, hierarchy)`: no level equals `name` once both are
   * lower-cased.
   */
  function IsNameUnique(name: string, hierarchy: seq<string>): (r: bool)
    ensures r <==> forall k :: 0 <= k < |hierarchy| ==> !SameIgnoringCase(hierarchy[k], name)
    decreases |hierarchy|
  {
    if hierarchy == [] then true
    else !SameIgnoringCase(hierarchy[0], name) && IsNameUnique(name, hierarchy[1..])
  }

  /** No two levels of the hierarchy differ only in letter case. */
  ghost predicate NoCaseDuplicates(hierarchy: seq<string>) {
    forall i, j :: 0 <= i < j < |hierarchy| ==> !SameIgnoringCase(hierarchy[i], hierarchy[j])
  }

  /** Every name is unique in an empty hierarchy. */
  lemma UniqueInEmpty(name: string)
    ensures IsNameUnique(name, [])
  {
  }

  /** The answer depends on the name only through its lower-cased form. */
  lemma UniqueIgnoresCase(name: string, other: string, hierarchy: seq<string>)
    requires SameIgnoringCase(name, other)
    ensures IsNameUnique(name, hierarchy) == IsNameUnique(other, hierarchy)
    ensures IsNameUnique(ToLower(name), hierarchy) == IsNameUnique(name, hierarchy)
  {
    ToLowerIdempotent(name);
  }

  /** The answer does not depend on the order of the levels. */
  lemma UniqueIgnoresOrder(name: string, hierarchy: seq<string>, shuffled: seq<string>)
    requires multiset(hierarchy) == multiset(shuffled)
    ensures IsNameUnique(name, hierarchy) == IsNameUnique(name, shuffled)
  {
    if !IsNameUnique(name, hierarchy) {
      var k :| 0 <= k < |hierarchy| && SameIgnoringCase(hierarchy[k], name);
      assert hierarchy[k] in multiset(shuffled);
      var j :| 0 <= j < |shuffled| && shuffled[j] == hierarchy[k];
    }
    if !IsNameUnique(name, shuffled) {
      var k :| 0 <= k < |shuffled| && SameIgnoringCase(shuffled[k], name);
      assert shuffled[k] in multiset(hierarchy);
      var j :| 0 <= j < |hierarchy| && hierarchy[j] == shuffled[k];
    }
  }

  /** Appending a level that differs from the name, case aside, does not change the answer. */
  lemma UniqueAfterAppend(name: string, hierarchy: seq<string>, level: string)
    requires !SameIgnoringCase(level, name)
    ensures IsNameUnique(name, hierarchy + [level]) == IsNameUnique(name, hierarchy)
  {
    var h := hierarchy + [level];
    assert forall k :: 0 <= k < |hierarchy| ==> h[k] == hierarchy[k];
  }

  /** Appending only names that pass the check keeps the hierarchy free of case duplicates. */
  lemma AppendKeepsNoCaseDuplicates(hierarchy: seq<string>, name: string)
    requires NoCaseDuplicates(hierarchy)
    requires IsNameUnique(name, hierarchy)
    ensures NoCaseDuplicates(hierarchy + [name])
  {
    var h := hierarchy + [name];
    forall i, j | 0 <= i < j < |h|
      ensures !SameIgnoringCase(h[i], h[j])
    {
      if j == |hierarchy| {
        assert h[i] == hierarchy[i];
      } else {
        assert h[i] == hierarchy[i] && h[j] == hierarchy[j];
      }
    }
  }
}
