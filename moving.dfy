/**
  Antenna cycling (src/systems/moving.rs): a handler that, on every tick,
  copies the sample of one antenna of a cycle into every proxy receiver and
  then moves its cursor to the next antenna, wrapping around the cycle.
*/
module Moving {
  import opened Modular
  import opened Propagation

  /** A receiver that stands for whichever antenna of the cycle is current. `labelText` holds its `label`, a reserved word in Dafny. */
  class ProxyReception {
    var current: real
    const labelText: string

    constructor (labelText: string)
      ensures current == 0.0 && this.labelText == labelText
    {
      current := 0.0;
      this.labelText := labelText;
    }
  }

  /** The cursor after one tick: one step forward, back to 0 once it reaches the cycle's length. */
  function NextPos(pos: nat, len: nat): (r: nat)
    ensures len > 0 ==> r < len
    ensures r == 0 <==> pos + 1 >= len
    ensures r != 0 ==> r == pos + 1
    ensures pos < len ==> r == (pos + 1) % len
  {
    if pos + 1 >= len then 0 else pos + 1
  }

  /** The cursor after `k` ticks. */
  function PosAfter(pos: nat, len: nat, k: nat): nat
  {
    if k == 0 then pos else NextPos(PosAfter(pos, len, k - 1), len)
  }

  /** Inside the cycle, `k` ticks move the cursor `k` places around it. */
  lemma {:induction false} PosAfterIsModular(pos: nat, len: nat, k: nat)
    requires pos < len
    ensures PosAfter(pos, len, k) == (pos + k) % len
  {
    if k > 0 {
      PosAfterIsModular(pos, len, k - 1);
      var prev := (pos + k - 1) % len;
      assert PosAfter(pos, len, k) == (prev + 1) % len;
      ModSucc(pos + k - 1, len);
    }
  }

  /** After as many ticks as there are antennas the cursor is back where it started. */
  lemma CycleReturns(pos: nat, len: nat)
    requires pos < len
    ensures PosAfter(pos, len, len) == pos
  {
    PosAfterIsModular(pos, len, len);
    ModUnique(pos + len, len, 1, pos);
  }

  /** With an empty cycle the cursor stays at 0. */
  lemma {:induction false} EmptyCycleStaysAtZero(pos: nat, k: nat)
    requires k > 0
    ensures PosAfter(pos, 0, k) == 0
  {
    if k > 1 {
      EmptyCycleStaysAtZero(pos, k - 1);
    }
  }

  class MovementHandler {
    var currentPos: nat
    const antennaCycle: seq<Entity>

    /** The cursor points into the cycle, or is 0 for an empty cycle. */
    ghost predicate Valid()
      reads this
    {
      currentPos < |antennaCycle| || currentPos == 0
    }

    constructor (antennaCycle: seq<Entity>)
      ensures Valid() && currentPos == 0 && this.antennaCycle == antennaCycle
    {
      currentPos := 0;
      this.antennaCycle := antennaCycle;
    }

    /**
      One tick: every proxy gets the current sample of the antenna under the
      cursor, then the cursor advances. A cursor outside the cycle or an
      antenna without a reception is fatal, but only when there is a proxy
      to update.
    */
    method Run(receptions: map<Entity, Reception>, proxies: seq<ProxyReception>) returns (ok: bool)
      requires Valid()
      modifies this`currentPos, set p | p in proxies
      ensures Valid()
      ensures ok <==> proxies == [] || (old(currentPos) < |antennaCycle| && antennaCycle[old(currentPos)] in receptions)
      ensures ok ==> forall p :: p in proxies ==> p.current == receptions[antennaCycle[old(currentPos)]].current
      ensures ok ==> currentPos == NextPos(old(currentPos), |antennaCycle|)
    {
      for i := 0 to |proxies|
        invariant currentPos == old(currentPos)
        invariant i > 0 ==> currentPos < |antennaCycle| && antennaCycle[currentPos] in receptions
        invariant forall k :: 0 <= k < i ==>
                    proxies[k].current == receptions[antennaCycle[currentPos]].current
      {
        if currentPos >= |antennaCycle| {
          return false;
        }
        var antenna := antennaCycle[currentPos];
        if antenna !in receptions {
          return false;
        }
        proxies[i].current := receptions[antenna].current;
      }
      currentPos := currentPos + 1;
      if currentPos >= |antennaCycle| {
        currentPos := 0;
      }
      return true;
    }
  }
}
