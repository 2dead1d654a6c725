/**
 * The single-flight markers of packages/proxy/src/handlers/rate-limit-cooldown.ts: reservations in a chain,
 * each linked to the one it displaced, and one slot naming the reservation that gates the account.
 */
module ProbeMarkers {
  import opened Wrappers

  /** `floor`, kept for the proofs only: how many reservations the last successful probe had settled by then. */
  datatype Node = Node(previous: Option<nat>, cooldownUntil: Option<int>, rolledBack: bool, floor: nat)

  /** The reservations of one account, oldest first, and its entry in the pending map. */
  datatype Chain = Chain(nodes: seq<Node>, slot: Option<nat>, floor: nat)

  const NO_MARKERS := Chain([], None, 0)

  function Mark(c: Chain): Chain {
    Chain(c.nodes + [Node(c.slot, None, false, c.floor)], Some(|c.nodes|), c.floor)
  }

  /** A fresh burst cooldown arms the gate with no predecessor. */
  function Arm(c: Chain, cooldownUntil: int): Chain {
    Chain(c.nodes + [Node(None, Some(cooldownUntil), false, c.floor)], Some(|c.nodes|), c.floor)
  }

  /** Every link points at an older reservation. */
  predicate Linked(nodes: seq<Node>) {
    forall i :: 0 <= i < |nodes| && nodes[i].previous.Some? ==> nodes[i].previous.value < i
  }

  /** The first reservation from `from` back that has not been rolled back. */
  function FirstLive(nodes: seq<Node>, from: Option<nat>): Option<nat>
    requires Linked(nodes) && (from.Some? ==> from.value < |nodes|)
    decreases if from.Some? then from.value + 1 else 0
  {
    if from.None? || !nodes[from.value].rolledBack then from else FirstLive(nodes, nodes[from.value].previous)
  }

  function RolledBack(c: Chain, n: nat): seq<Node>
    requires n < |c.nodes|
  {
    c.nodes[n := c.nodes[n].(rolledBack := true)]
  }

  function Rollback(c: Chain, n: nat): Chain
    requires n < |c.nodes| && Linked(c.nodes)
  {
    var nodes := RolledBack(c, n);
    if c.slot != Some(n) then c.(nodes := nodes)
    else c.(nodes := nodes, slot := FirstLive(nodes, nodes[n].previous))
  }

  /** A successful probe admitted for reservation `n` clears the slot only if `n` still owns it. */
  function Recover(c: Chain, n: nat): Chain {
    if c.slot == Some(n) then Chain(c.nodes, None, n + 1) else c
  }

  // What the slot should hold

  predicate Live(nodes: seq<Node>, i: nat) {
    i < |nodes| && !nodes[i].rolledBack
  }

  /** The newest of reservations `floor` up to `end` that has not been rolled back. */
  function Newest(nodes: seq<Node>, floor: nat, end: nat): Option<nat>
    requires end <= |nodes|
  {
    if end <= floor then None
    else if Live(nodes, end - 1) then Some(end - 1)
    else Newest(nodes, floor, end - 1)
  }

  predicate Dead(nodes: seq<Node>, from: nat, to: nat) {
    forall k :: from <= k < to && k < |nodes| ==> nodes[k].rolledBack
  }

  /** What each reservation recorded when it was made. */
  ghost predicate Recorded(nodes: seq<Node>, i: nat)
    requires Linked(nodes) && i < |nodes|
  {
    && nodes[i].floor <= i
    && (nodes[i].cooldownUntil.Some? ==> nodes[i].previous.None? && !nodes[i].rolledBack)
    && match nodes[i].previous {
      case Some(p) => nodes[i].floor <= p && nodes[p].floor == nodes[i].floor && Dead(nodes, p + 1, i)
      case None => nodes[i].cooldownUntil.Some? || Dead(nodes, nodes[i].floor, i)
    }
  }

  /**
   * The slot holds the newest reservation not rolled back since the last successful probe, so it is empty only
   * when every one of them was rolled back.
   */
  ghost predicate Sound(c: Chain) {
    && Linked(c.nodes)
    && c.floor <= |c.nodes|
    && c.slot == Newest(c.nodes, c.floor, |c.nodes|)
    && (forall i :: 0 <= i < |c.nodes| ==> Recorded(c.nodes, i))
    && forall i :: c.floor <= i < |c.nodes| && !c.nodes[i].rolledBack ==> c.nodes[i].floor == c.floor
  }

  lemma {:induction false} NewestIs(nodes: seq<Node>, floor: nat, end: nat)
    requires end <= |nodes|
    ensures var r := Newest(nodes, floor, end);
            && (r.Some? ==> floor <= r.value < end && Live(nodes, r.value) && Dead(nodes, r.value + 1, end))
            && (r.None? ==> Dead(nodes, floor, end))
  {
    if end > floor && !Live(nodes, end - 1) {
      NewestIs(nodes, floor, end - 1);
    }
  }

  lemma {:induction false} NewestSkips(nodes: seq<Node>, floor: nat, mid: nat, end: nat)
    requires mid <= end <= |nodes| && Dead(nodes, mid, end)
    ensures Newest(nodes, floor, end) == Newest(nodes, floor, mid)
  {
    if mid < end {
      NewestSkips(nodes, floor, mid, end - 1);
      if floor < end {
        assert nodes[end - 1].rolledBack;
      }
    }
  }

  /** Walking the links back from a reservation finds the newest live one before it. */
  lemma {:induction false} WalkFindsNewest(nodes: seq<Node>, n: nat)
    requires Linked(nodes) && n < |nodes| && nodes[n].cooldownUntil.None?
    requires forall i :: 0 <= i <= n ==> Recorded(nodes, i)
    ensures FirstLive(nodes, nodes[n].previous) == Newest(nodes, nodes[n].floor, n)
  {
    assert Recorded(nodes, n);
    match nodes[n].previous {
      case None =>
        NewestIs(nodes, nodes[n].floor, n);
      case Some(p) =>
        NewestSkips(nodes, nodes[n].floor, p + 1, n);
        if nodes[p].rolledBack {
          assert Recorded(nodes, p);
          WalkFindsNewest(nodes, p);
        }
    }
  }

  lemma RecordedKept(nodes: seq<Node>, more: seq<Node>, i: nat)
    requires Linked(nodes) && Linked(more) && i < |nodes| <= |more| && Recorded(nodes, i)
    requires forall k :: 0 <= k < |nodes| ==>
      && more[k] == nodes[k].(rolledBack := more[k].rolledBack)
      && (nodes[k].rolledBack ==> more[k].rolledBack)
      && (nodes[k].cooldownUntil.Some? ==> !more[k].rolledBack)
    ensures Recorded(more, i)
  {
  }

  lemma BurstsStand(c: Chain)
    requires Sound(c)
    ensures forall k :: 0 <= k < |c.nodes| && c.nodes[k].cooldownUntil.Some? ==> !c.nodes[k].rolledBack
  {
    forall k | 0 <= k < |c.nodes| && c.nodes[k].cooldownUntil.Some?
      ensures !c.nodes[k].rolledBack
    {
      assert Recorded(c.nodes, k);
    }
  }

  /** Reserving, with or without a predecessor, makes the new reservation the newest live one. */
  lemma AddKeepsSound(c: Chain, node: Node)
    requires Sound(c)
    requires node == Node(c.slot, None, false, c.floor)
          || (node.previous.None? && node.cooldownUntil.Some? && !node.rolledBack && node.floor == c.floor)
    ensures Sound(Chain(c.nodes + [node], Some(|c.nodes|), c.floor))
  {
    var nodes := c.nodes + [node];
    var n := |c.nodes|;
    NewestIs(c.nodes, c.floor, n);
    assert Linked(nodes);
    assert Recorded(nodes, n) by {
      if node.previous.Some? {
        assert Dead(c.nodes, node.previous.value + 1, n);
      } else if node.cooldownUntil.None? {
        assert Dead(c.nodes, c.floor, n);
      }
    }
    BurstsStand(c);
    forall i | 0 <= i < n
      ensures Recorded(nodes, i)
    {
      RecordedKept(c.nodes, nodes, i);
    }
  }

  lemma MarkKeepsSound(c: Chain)
    requires Sound(c)
    ensures Sound(Mark(c)) && Mark(c).slot == Some(|c.nodes|)
  {
    AddKeepsSound(c, Node(c.slot, None, false, c.floor));
  }

  lemma ArmKeepsSound(c: Chain, cooldownUntil: int)
    requires Sound(c)
    ensures Sound(Arm(c, cooldownUntil))
  {
    AddKeepsSound(c, Node(None, Some(cooldownUntil), false, c.floor));
  }

  lemma RollbackKeepsSound(c: Chain, n: nat)
    requires Sound(c) && n < |c.nodes| && c.nodes[n].cooldownUntil.None?
    ensures Sound(Rollback(c, n))
  {
    var nodes := RolledBack(c, n);
    var r := Rollback(c, n);
    assert Linked(nodes);
    BurstsStand(c);
    forall i | 0 <= i < |nodes|
      ensures Recorded(nodes, i)
    {
      RecordedKept(c.nodes, nodes, i);
    }
    NewestIs(c.nodes, c.floor, |nodes|);
    if c.slot == Some(n) {
      WalkFindsNewest(nodes, n);
      assert nodes[n].floor == c.floor;
      assert Dead(c.nodes, n + 1, |nodes|);
      NewestSkips(nodes, c.floor, n, |nodes|);
    } else {
      RollbackElsewhere(c, n);
    }
  }

  /** Rolling back a reservation that is not the newest live one leaves the newest where it is. */
  lemma RollbackElsewhere(c: Chain, n: nat)
    requires n < |c.nodes| && Newest(c.nodes, c.floor, |c.nodes|) != Some(n)
    ensures Newest(RolledBack(c, n), c.floor, |c.nodes|) == Newest(c.nodes, c.floor, |c.nodes|)
  {
    var nodes := RolledBack(c, n);
    NewestIs(c.nodes, c.floor, |nodes|);
    match Newest(c.nodes, c.floor, |nodes|) {
      case Some(m) =>
        assert Dead(c.nodes, m + 1, |nodes|) && Dead(nodes, m + 1, |nodes|);
        NewestSkips(nodes, c.floor, m + 1, |nodes|);
      case None =>
        assert Dead(c.nodes, c.floor, |nodes|) && Dead(nodes, c.floor, |nodes|);
        NewestIs(nodes, c.floor, |nodes|);
    }
  }

  lemma RecoverKeepsSound(c: Chain, n: nat)
    requires Sound(c)
    ensures Sound(Recover(c, n))
  {
    if c.slot == Some(n) {
      NewestIs(c.nodes, c.floor, |c.nodes|);
      assert Dead(c.nodes, n + 1, |c.nodes|);
      NewestIs(c.nodes, n + 1, |c.nodes|);
    }
  }

  /** A reservation that was neither rolled back nor settled by a probe keeps the account gated. */
  lemma LiveKeepsMarker(c: Chain, n: nat)
    requires Sound(c) && Live(c.nodes, n) && c.floor <= n
    ensures c.slot.Some? && n <= c.slot.value && Live(c.nodes, c.slot.value)
  {
    NewestIs(c.nodes, c.floor, |c.nodes|);
  }

  /** When every reservation since the last successful probe was rolled back, nothing stays gated. */
  lemma AllFailedClearsMarker(c: Chain)
    requires Sound(c) && Dead(c.nodes, c.floor, |c.nodes|)
    ensures c.slot.None?
  {
    NewestIs(c.nodes, c.floor, |c.nodes|);
  }

  // The objects themselves

  class Reservation {
    const generation: nat
    const previous: Reservation?
    const cooldownUntil: Option<int>
    var rolledBack: bool
    ghost const index: nat
    ghost const floor: nat

    constructor (generation: nat, previous: Reservation?, cooldownUntil: Option<int>, ghost index: nat, ghost floor: nat)
      ensures this.generation == generation && this.previous == previous && this.cooldownUntil == cooldownUntil
      ensures !rolledBack && this.index == index && this.floor == floor
    {
      this.generation, this.previous, this.cooldownUntil := generation, previous, cooldownUntil;
      rolledBack := false;
      this.index, this.floor := index, floor;
    }

    ghost function Value(): Node
      reads this
    {
      Node(if previous == null then None else Some(previous.index), cooldownUntil, rolledBack, floor)
    }
  }

  /** One account's entry in the pending map, and the counter that numbers reservations. */
  class Markers {
    var pending: Reservation?
    var counter: nat
    ghost var issued: seq<Reservation>
    ghost var floor: nat

    constructor ()
      ensures Valid() && State() == NO_MARKERS
    {
      pending, counter, issued, floor := null, 0, [], 0;
    }

    ghost predicate Owns(r: Reservation?, n: nat)
      reads this
    {
      n <= |issued| && (r != null ==> r.index < n && issued[r.index] == r)
    }

    ghost predicate Valid()
      reads this, issued
    {
      && floor <= |issued|
      && Owns(pending, |issued|)
      && (forall i :: 0 <= i < |issued| ==>
            issued[i].index == i && issued[i].generation <= counter && Owns(issued[i].previous, i))
      && forall i, j :: 0 <= i < j < |issued| ==> issued[i].generation < issued[j].generation
    }

    ghost function Nodes(): seq<Node>
      reads this, issued
    {
      seq(|issued|, i requires 0 <= i < |issued| reads this, issued => issued[i].Value())
    }

    ghost function State(): (c: Chain)
      requires Valid()
      reads this, issued
      ensures Linked(c.nodes)
    {
      Chain(Nodes(), IndexOf(pending), floor)
    }

    static ghost function IndexOf(r: Reservation?): Option<nat> {
      if r == null then None else Some(r.index)
    }

    /** `markCapacityRestoredProbePending`. */
    method MarkPending() returns (r: Reservation)
      requires Valid()
      modifies this
      ensures Valid() && fresh(r) && issued == old(issued) + [r] && counter == old(counter) + 1
      ensures r.generation == counter && pending == r
      ensures State() == Mark(old(State()))
    {
      counter := counter + 1;
      r := new Reservation(counter, pending, None, |issued|, floor);
      pending, issued := r, issued + [r];
    }

    /** `armBurstRecoveryProbe`. */
    method ArmBurst(cooldownUntil: int)
      requires Valid()
      modifies this
      ensures Valid() && State() == Arm(old(State()), cooldownUntil)
    {
      counter := counter + 1;
      var r := new Reservation(counter, null, Some(cooldownUntil), |issued|, floor);
      pending, issued := r, issued + [r];
    }

    method FirstLiveReservation(from: Reservation?) returns (r: Reservation?)
      requires Valid() && Owns(from, |issued|)
      ensures Owns(r, |issued|) && IndexOf(r) == FirstLive(Nodes(), IndexOf(from))
      ensures r != null ==> !r.rolledBack
    {
      r := from;
      while r != null && r.rolledBack
        invariant Owns(r, |issued|) && FirstLive(Nodes(), IndexOf(r)) == FirstLive(Nodes(), IndexOf(from))
        decreases if r == null then 0 else r.index + 1
      {
        assert Nodes()[r.index] == r.Value();
        r := r.previous;
      }
      assert r != null ==> Nodes()[r.index] == r.Value();
    }

    /** `rollbackCapacityRestoredProbePending`. */
    method RollbackPending(r: Reservation)
      requires Valid() && r in issued
      modifies this`pending, r`rolledBack
      ensures Valid() && issued == old(issued) && r.rolledBack
      ensures State() == Rollback(old(State()), r.index)
    {
      ghost var before := State();
      assert issued[r.index] == r && (pending == r <==> before.slot == Some(r.index));
      r.rolledBack := true;
      ghost var nodes := Nodes();
      assert nodes == RolledBack(before, r.index);
      if pending == r {
        assert nodes[r.index] == r.Value();
        var live := FirstLiveReservation(r.previous);
        assert Nodes() == nodes;
        pending := live;
      }
      assert Nodes() == nodes;
    }

    /** The marker half of a recovered probe: only the admitted generation may clear the slot. */
    method Recovered(generation: nat)
      requires Valid()
      modifies this`pending, this`floor
      ensures Valid() && issued == old(issued)
      ensures forall n :: 0 <= n < |issued| && issued[n].generation == generation ==> State() == Recover(old(State()), n)
      ensures (forall n :: 0 <= n < |issued| ==> issued[n].generation != generation) ==> State() == old(State())
    {
      ghost var before := State();
      if pending != null && pending.generation == generation {
        floor := pending.index + 1;
        pending := null;
        assert State().nodes == before.nodes;
      }
    }
  }
}
