/** Small helpers shared by the modules of this project. */
module Common {

  datatype Option<+T> = None | Some(value: T)

  type Lab = string

  // One second of the agent's clock, in nanoseconds.
  const SECOND: nat := 1_000_000_000

  /** The strictly increasing sequence of the members of a finite set of numbers. */
  function SortedSeq(s: set<nat>): (r: seq<nat>)
    ensures forall x :: x in r <==> x in s
    ensures StrictlyIncreasing(r)
  {
    if s == {} then []
    else
      var m := Minimum(s);
      [m] + SortedSeq(s - {m})
  }

  ghost predicate IsMinimum(m: nat, s: set<nat>) {
    m in s && forall x :: x in s ==> m <= x
  }

  function Minimum(s: set<nat>): (m: nat)
    requires s != {}
    ensures IsMinimum(m, s)
  {
    MinimumExists(s);
    var m :| m in s && forall x :: x in s ==> m <= x;
    m
  }

  lemma {:induction false} MinimumExists(s: set<nat>)
    requires s != {}
    ensures exists m :: IsMinimum(m, s)
  {
    var y :| y in s;
    var t := s - {y};
    assert s == t + {y};
    if t == {} {
      assert IsMinimum(y, s);
    } else {
      MinimumExists(t);
      var m :| IsMinimum(m, t);
      assert IsMinimum(if m <= y then m else y, s);
    }
  }

  function Members(s: seq<nat>): set<nat> { set x | x in s }

  predicate StrictlyIncreasing(s: seq<nat>) {
    forall i, j | 0 <= i < j < |s| :: s[i] < s[j]
  }

  predicate Distinct<T(==)>(s: seq<T>) {
    forall i, j | 0 <= i < j < |s| :: s[i] != s[j]
  }
}
