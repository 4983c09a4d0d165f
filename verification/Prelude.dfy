/** Small datatypes and set facts shared by the other modules. */
module Prelude {

  datatype Option<+T> = None | Some(value: T)

  /** A nonempty finite set of naturals has a largest member. */
  lemma LargestMember(s: set<nat>) returns (m: nat)
    requires s != {}
    ensures m in s && forall k :: k in s ==> k <= m
  {
    var x :| x in s;
    m := x;
    var rest := s - {x};
    if rest != {} {
      var top := LargestMember(rest);
      m := if x < top then top else x;
    }
    forall k | k in s ensures k <= m {
      assert k == x || k in rest;
    }
  }

  function MaxOf(s: set<nat>): (m: nat)
    requires s != {}
    ensures m in s
    ensures forall k :: k in s ==> k <= m
  {
    assert exists m :: m in s && forall k :: k in s ==> k <= m by {
      var m := LargestMember(s);
    }
    var m :| m in s && forall k :: k in s ==> k <= m;
    m
  }
}
