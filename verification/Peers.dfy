/** What the routing strategies see of a backend. */
module Peers {

  /** What a strategy reads of a candidate backend. */
  datatype Peer = Peer(id: nat, weight: nat, active: nat, queue: nat, latency: nat)

  /** A configured weight of 0 counts as 1. */
  function Share(p: Peer): (w: nat)
    ensures w >= 1 && w >= p.weight && (w == 1 || w == p.weight)
  {
    if p.weight < 1 then 1 else p.weight
  }

  /** First position with the smallest key. */
  function FirstLeast(ps: seq<Peer>, key: Peer -> nat): (i: nat)
    requires ps != []
    ensures i < |ps|
    ensures forall j :: 0 <= j < |ps| ==> key(ps[i]) <= key(ps[j])
    ensures forall j :: 0 <= j < i ==> key(ps[i]) < key(ps[j])
  {
    if |ps| == 1 then 0
    else
      var i := FirstLeast(ps[..|ps| - 1], key);
      if key(ps[|ps| - 1]) < key(ps[i]) then |ps| - 1 else i
  }

  function ActiveOf(p: Peer): nat { p.active }

  /** Connections plus the requests the backend itself reports as waiting. */
  function LoadOf(p: Peer): nat { p.active + p.queue }
}
