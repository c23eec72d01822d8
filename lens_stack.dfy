/**
  The lens stack device of lens.py (LensStackBase): the pre-move interlock
  _makeSafe and the gated move.
*/
module LensStacks {
  import opened Interlock
  import opened Transform

  class LensStack {
    /** The attenuator protecting the sample; may be absent (attObj=None). */
    var att: Attenuator?
    /** The motion commands handed to the underlying pseudo positioner, oldest first. */
    var issued: seq<PseudoPosition>

    constructor (att: Attenuator?)
      ensures this.att == att && issued == []
    {
      this.att := att;
      issued := [];
    }

    /**
      _makeSafe (lines 221-245). Without an attenuator it reports false and
      touches nothing. Otherwise it picks the thickest filter (sel), commands it in
      only if it is not already in, leaves every other filter alone, and reports
      whether the picked filter is in afterwards. settled is the state the
      mechanism reports after an insertion command.
    */
    method MakeSafe(settled: bool) returns (safe: bool, ghost sel: nat)
      requires att != null ==> |att.filters| > 0
      modifies att
      ensures att == null ==> !safe
      ensures att != null ==> IsSelected(old(att.filters), sel)
      ensures att != null ==>
                att.filters == if old(att.filters)[sel].inserted then old(att.filters)
                               else old(att.filters)[sel := old(att.filters)[sel].(inserted := settled)]
      ensures att != null ==>
                att.commands == old(att.commands) + if old(att.filters)[sel].inserted then [] else [sel]
      ensures att != null ==> safe == att.filters[sel].inserted
      ensures att != null ==> safe == (old(att.filters)[sel].inserted || settled)
    {
      if att == null {
        return false, 0;
      }
      var k := SelectThickest(att.filters);
      sel := k;
      if !att.filters[k].inserted {
        att.Insert(k, settled);
      }
      safe := att.filters[k].inserted;
    }

    /**
      move (lines 168-172): the motion command is issued only when _makeSafe
      reports true; otherwise nothing moves and None is returned (started is
      false).
    */
    method Move(target: PseudoPosition, settled: bool) returns (started: bool, ghost sel: nat)
      requires att != null ==> |att.filters| > 0
      modifies this, att
      ensures att == old(att)
      ensures att == null ==> !started
      ensures att != null ==> IsSelected(old(att.filters), sel)
      ensures att != null ==>
                att.filters == if old(att.filters)[sel].inserted then old(att.filters)
                               else old(att.filters)[sel := old(att.filters)[sel].(inserted := settled)]
      ensures att != null ==>
                att.commands == old(att.commands) + if old(att.filters)[sel].inserted then [] else [sel]
      ensures att != null ==> started == att.filters[sel].inserted
      ensures issued == if started then old(issued) + [target] else old(issued)
    {
      var safe;
      safe, sel := MakeSafe(settled);
      if safe == true {
        issued := issued + [target];
      }
      started := safe;
    }
  }
}
