/**
  The attenuator side of the safety interlock in lens.py (_makeSafe): the
  filters, how the thickest one is chosen, and inserting a filter.
*/
module Interlock {

  /** One attenuator filter: its thickness and whether it is in the beam. */
  datatype Filter = Filter(thickness: real, inserted: bool)

  /**
    Filter k is the one the scan of lines 231-235 picks: it starts from
    filters[0] with a running maximum of 0 and replaces its pick only on a strictly
    greater thickness. So if some thickness is positive, k is the first filter of
    greatest thickness; otherwise k is 0.
  */
  ghost predicate IsSelected(fs: seq<Filter>, k: int) {
    && 0 <= k < |fs|
    && if exists j :: 0 <= j < |fs| && fs[j].thickness > 0.0 then
         && (forall j :: 0 <= j < |fs| ==> fs[j].thickness <= fs[k].thickness)
         && (forall j :: 0 <= j < k ==> fs[j].thickness < fs[k].thickness)
       else k == 0
  }

  /** At most one filter is selected. */
  lemma SelectionUnique(fs: seq<Filter>, k1: int, k2: int)
    requires IsSelected(fs, k1) && IsSelected(fs, k2)
    ensures k1 == k2
  {
  }

  /** The scan of lines 231-235, returning the index of the picked filter. */
  method SelectThickest(fs: seq<Filter>) returns (k: nat)
    requires |fs| > 0
    ensures IsSelected(fs, k)
  {
    var thk := 0.0;
    k := 0;
    for i := 0 to |fs|
      invariant k < |fs| && thk >= 0.0
      invariant forall j :: 0 <= j < i ==> fs[j].thickness <= thk
      invariant thk > 0.0 ==> k < i && fs[k].thickness == thk
      invariant thk > 0.0 ==> forall j :: 0 <= j < k ==> fs[j].thickness < thk
      invariant thk == 0.0 ==> k == 0
    {
      var t := fs[i].thickness;
      if t > thk {
        k, thk := i, t;
      }
    }
  }

  /** The attenuator: its filters, whose insertion state changes when one is inserted. */
  class Attenuator {
    var filters: seq<Filter>
    /** The indices of the filters commanded in, oldest first. */
    var commands: seq<nat>

    constructor (fs: seq<Filter>)
      ensures filters == fs && commands == []
    {
      filters := fs;
      commands := [];
    }

    /**
      Command filter i in. settled is the state the mechanism reports after the
      command and the settle wait: the command may fail to move the filter.
    */
    method Insert(i: nat, settled: bool)
      requires i < |filters|
      modifies this
      ensures filters == old(filters)[i := old(filters)[i].(inserted := settled)]
      ensures commands == old(commands) + [i]
    {
      filters := filters[i := filters[i].(inserted := settled)];
      commands := commands + [i];
    }
  }
}
