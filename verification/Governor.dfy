/** The bitrate governor of the host loop: AIMD on the depth of the outgoing queue, in u32 arithmetic. */
module Governor {
  import opened Base

  const FLOOR: nat := 256000
  const TOP: nat := 20000000
  const DEEP: nat := 96
  const U32_MAX: nat := 0xFFFF_FFFF

  function Max(a: nat, b: nat): nat { if a >= b then a else b }
  function Clamp(x: nat, lo: nat, hi: nat): nat { if x < lo then lo else if x > hi then hi else x }

  function Lowered(rate: nat): nat { Max(rate * 7 / 10, FLOOR) }
  function Raised(rate: nat, ceiling: nat): nat { Min(rate * 5 / 4, ceiling) }

  datatype Quality = Quality(fps: nat, bitrate: nat, scale: nat)

  class Governor {
    var params: Quality
    var actual: nat
    /** Whether an encoder exists; it is dropped whenever the rate or the quality changes. */
    var encoder: bool

    ghost predicate Valid() reads this { FLOOR <= actual <= params.bitrate <= TOP }

    constructor ()
      ensures Valid() && actual == params.bitrate == 4000000 && !encoder
    {
      params := Quality(30, 4000000, 1);
      actual := 4000000;
      encoder := false;
    }

    /** One governor tick; the assertions are that the u32 products do not overflow. */
    method Tick(backlog: nat)
      requires Valid()
      modifies this
      ensures Valid() && params == old(params)
      ensures actual == if backlog > DEEP then Lowered(old(actual))
                        else if backlog == 0 then Raised(old(actual), params.bitrate)
                        else old(actual)
      ensures encoder == (old(encoder) && actual == old(actual))
      ensures backlog > DEEP && old(actual) > FLOOR ==> actual < old(actual)
      ensures backlog == 0 && old(actual) < params.bitrate ==> actual > old(actual)
    {
      if backlog > DEEP && actual > FLOOR {
        assert actual * 7 <= U32_MAX;
        actual := Max(actual * 7 / 10, FLOOR);
        encoder := false;
      } else if backlog == 0 && actual < params.bitrate {
        assert actual * 5 <= U32_MAX;
        actual := Min(actual * 5 / 4, params.bitrate);
        encoder := false;
      }
    }

    /** A quality request from the controller, with whatever u32 values it carries. */
    method SetQuality(q: Quality)
      requires Valid()
      modifies this
      ensures Valid()
      ensures params == Quality(Clamp(q.fps, 5, 60), Clamp(q.bitrate, FLOOR, TOP), Clamp(q.scale, 1, 4))
      ensures if params == old(params) then actual == old(actual) && encoder == old(encoder)
              else actual == params.bitrate && !encoder
    {
      var next := Quality(Clamp(q.fps, 5, 60), Clamp(q.bitrate, FLOOR, TOP), Clamp(q.scale, 1, 4));
      if next.fps != params.fps || next.bitrate != params.bitrate || next.scale != params.scale {
        actual := next.bitrate;
        params := next;
        encoder := false;
      }
    }
  }

  /** A value in range is kept, and any other one becomes the bound that is nearer to it. */
  lemma ClampKeepsRange(x: nat, lo: nat, hi: nat)
    requires lo <= hi
    ensures lo <= Clamp(x, lo, hi) <= hi
    ensures if lo <= x <= hi then Clamp(x, lo, hi) == x else Clamp(x, lo, hi) == if x < lo then lo else hi
  {
  }

  // ------------------------------------------------------------ convergence

  /** The rate after `n` congested ticks in a row. */
  function Congested(rate: nat, n: nat): nat { if n == 0 then rate else Lowered(Congested(rate, n - 1)) }

  /** The rate after `n` idle ticks in a row. */
  function Idle(rate: nat, ceiling: nat, n: nat): nat {
    if n == 0 then rate else Raised(Idle(rate, ceiling, n - 1), ceiling)
  }

  lemma {:induction false} CongestedMonotone(x: nat, y: nat, n: nat)
    requires x <= y
    ensures Congested(x, n) <= Congested(y, n)
  {
    if n > 0 {
      CongestedMonotone(x, y, n - 1);
    }
  }

  lemma FallFromTop()
    ensures Congested(TOP, 12) == 276825 && Congested(TOP, 13) == FLOOR
  {
    assert Congested(TOP, 1) == 14000000;
    assert Congested(TOP, 2) == 9800000;
    assert Congested(TOP, 3) == 6860000;
    assert Congested(TOP, 4) == 4802000;
    assert Congested(TOP, 5) == 3361400;
    assert Congested(TOP, 6) == 2352980;
    assert Congested(TOP, 7) == 1647086;
    assert Congested(TOP, 8) == 1152960;
    assert Congested(TOP, 9) == 807072;
    assert Congested(TOP, 10) == 564950;
    assert Congested(TOP, 11) == 395465;
    assert Congested(TOP, 12) == 276825;
  }

  lemma CongestedAtFloor(rate: nat, n: nat)
    requires n > 0
    ensures Congested(rate, n) >= FLOOR
  {
  }

  /** From any rate up to the top, 13 congested ticks reach the floor, and more of them stay there. */
  lemma {:induction false} FloorWithin13(rate: nat, n: nat)
    requires rate <= TOP && n >= 13
    ensures Congested(rate, n) == FLOOR
  {
    if n == 13 {
      CongestedMonotone(rate, TOP, 13);
      FallFromTop();
      CongestedAtFloor(rate, 13);
    } else {
      FloorWithin13(rate, n - 1);
    }
  }

  /** Twelve are not enough from the top. */
  lemma TwelveTooFew()
    ensures Congested(TOP, 12) > FLOOR
  {
    FallFromTop();
  }

  /** The uncapped climb from the floor. */
  function Climb(n: nat): nat { if n == 0 then FLOOR else Climb(n - 1) * 5 / 4 }

  lemma {:induction false} IdleAtLeastClimb(rate: nat, ceiling: nat, n: nat)
    requires FLOOR <= rate <= ceiling
    ensures Min(Climb(n), ceiling) <= Idle(rate, ceiling, n) <= ceiling
  {
    if n > 0 {
      IdleAtLeastClimb(rate, ceiling, n - 1);
    }
  }

  lemma ClimbValues()
    ensures Climb(19) < TOP <= Climb(20)
  {
    assert Climb(2) == 400000;
    assert Climb(4) == 625000;
    assert Climb(6) == 976562;
    assert Climb(8) == 1525877;
    assert Climb(10) == 2384182;
    assert Climb(12) == 3725283;
    assert Climb(14) == 5820753;
    assert Climb(16) == 9094926;
    assert Climb(18) == 14210821;
  }

  lemma {:induction false} ClimbGrows(n: nat)
    requires n >= 20
    ensures Climb(n) >= TOP
  {
    if n == 20 {
      ClimbValues();
    } else {
      ClimbGrows(n - 1);
    }
  }

  /** From any rate at or above the floor, 20 idle ticks reach the ceiling, and more of them stay there. */
  lemma CeilingWithin20(rate: nat, ceiling: nat, n: nat)
    requires FLOOR <= rate <= ceiling <= TOP && n >= 20
    ensures Idle(rate, ceiling, n) == ceiling
  {
    ClimbGrows(n);
    IdleAtLeastClimb(rate, ceiling, n);
  }

  lemma {:induction false} IdleAtMostClimb(ceiling: nat, n: nat)
    ensures Idle(FLOOR, ceiling, n) <= Climb(n)
  {
    if n > 0 {
      IdleAtMostClimb(ceiling, n - 1);
    }
  }

  /** Nineteen are not enough from the floor to the top. */
  lemma NineteenTooFew()
    ensures Idle(FLOOR, TOP, 19) < TOP
  {
    ClimbValues();
    IdleAtMostClimb(TOP, 19);
  }
}
