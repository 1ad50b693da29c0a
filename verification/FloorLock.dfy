/** Floor locks as bit masks: the 1k handler's list of floors, the virtual
    parameter that packs it again, and the fire-floor rule of both handlers. */
module FloorLock {
  import opened Bits
  import opened Text

  datatype Verdict = Accepted(floors: seq<int>) | DataErr | FireFloorErr | FireFloorUnread | Raised

  /** Specification: the floors 1 to `n` whose bit is set, in ascending order. */
  function LockedFloors(mask: int, n: nat): (r: seq<int>)
    ensures forall f :: f in r <==> 1 <= f <= n && Bit(mask, f - 1)
    ensures forall i, j | 0 <= i < j < |r| :: r[i] < r[j]
  {
    if n == 0 then []
    else
      var r := LockedFloors(mask, n - 1);
      assert forall i | 0 <= i < |r| :: r[i] in r;
      r + (if Bit(mask, n - 1) then [n] else [])
  }

  /** First a list of bits from high to low, then the floors read from its end. */
  method FloorList(mask: int, n: nat) returns (floors: seq<int>)
    ensures floors == LockedFloors(mask, n)
  {
    var bits: seq<int> := [];
    for k := 0 to n
      invariant |bits| == k && forall j | 0 <= j < k :: bits[j] == if Bit(mask, n - 1 - j) then 1 else 0
    {
      ShrBit(mask, n - 1 - k);
      bits := bits + [And(Shr(mask, n - 1 - k), 1)];
    }
    floors := [];
    for k := 0 to n
      invariant floors == LockedFloors(mask, k)
    {
      if bits[n - (k + 1)] == 1 { floors := floors + [k + 1]; }
    }
  }

  /** The 1k handler's answer to a floor-lock request, for its six floors. The fire
      floor is None when the database cannot give it. */
  method Request1k(mask: int, fireFloor: Option<int>) returns (v: Verdict)
    ensures v == DataErr <==> !(0 <= mask <= 63)
    ensures v == FireFloorUnread <==> 0 <= mask <= 63 && fireFloor.None?
    ensures v == FireFloorErr <==>
      0 <= mask <= 63 && fireFloor.Some? && 1 <= fireFloor.value <= 6 && Bit(mask, fireFloor.value - 1)
    ensures v.Accepted? ==> v.floors == LockedFloors(mask, 6)
    ensures v != Raised
  {
    if mask < 0 || mask > 63 { return DataErr; }
    if fireFloor.None? { return FireFloorUnread; }
    var floors := FloorList(mask, 6);
    if fireFloor.value in floors { return FireFloorErr; }
    return Accepted(floors);
  }

  /** The AHL handler's answer; shifting by a negative count raises. */
  function RequestAhl(mask: int, fireFloor: int): (v: Verdict)
    ensures v == Raised <==> fireFloor < 1
    ensures v.Accepted? || v == FireFloorErr || v == Raised
  {
    if fireFloor < 1 then Raised
    else if And(mask, Pow2(fireFloor - 1)) > 0 then FireFloorErr
    else Accepted([])
  }

  /** For every mask and every fire floor from 1: the AHL handler rejects exactly
      the masks that hold the fire floor, and so agrees with the 1k handler. */
  lemma FireFloorRule(mask: int, fireFloor: int)
    requires fireFloor >= 1
    ensures RequestAhl(mask, fireFloor) == FireFloorErr <==> Bit(mask, fireFloor - 1)
    ensures fireFloor <= 6 ==> (RequestAhl(mask, fireFloor) == FireFloorErr <==> fireFloor in LockedFloors(mask, 6))
  {
    AndPow2(mask, fireFloor - 1);
  }

  /** The text of the lock bits of floors `n` down to 1, as the six status
      parameters spell it. */
  function LockText(floors: seq<int>, n: nat): string {
    if n == 0 then "" else [if n in floors then '1' else '0'] + LockText(floors, n - 1)
  }

  /** Highest bit first: the binary digits of `x`. */
  function BinText(x: nat, n: nat): string
    decreases n
  {
    if n == 0 then "" else BinText(x / 2, n - 1) + [if x % 2 == 1 then '1' else '0']
  }

  lemma {:induction false} BinTextParses(x: nat, n: nat)
    requires 0 < n && x < Pow2(n)
    ensures Digits(BinText(x, n), 2) == Some(x)
    decreases n
  {
    var s := BinText(x, n);
    assert s[..|s| - 1] == BinText(x / 2, n - 1);
    if n > 1 {
      BinTextParses(x / 2, n - 1);
      var rest := BinText(x / 2, n - 1);
      assert rest[|rest| - 1] != '_';
    }
  }

  lemma {:induction false} BinTextHead(x: nat, n: nat)
    requires n > 0
    ensures BinText(x, n) == [if Bit(x, n - 1) then '1' else '0'] + BinText(x, n - 1)
    decreases n
  {
    if n > 1 { BinTextHead(x / 2, n - 1); }
  }

  lemma {:induction false} LockTextIsBinary(mask: nat, floors: seq<int>, n: nat)
    requires forall f :: 1 <= f <= n ==> (f in floors <==> Bit(mask, f - 1))
    ensures LockText(floors, n) == BinText(mask, n)
  {
    if n > 0 {
      LockTextIsBinary(mask, floors, n - 1);
      BinTextHead(mask, n);
    }
  }

  /** Packing the locked floors again gives the mask back, for any floor count. */
  lemma RepackRoundTrip(mask: nat, n: nat)
    requires 0 < n && mask < Pow2(n)
    ensures Digits(LockText(LockedFloors(mask, n), n), 2) == Some(mask)
  {
    LockTextIsBinary(mask, LockedFloors(mask, n), n);
    BinTextParses(mask, n);
  }
}
