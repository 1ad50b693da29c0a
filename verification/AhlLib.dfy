/** The AHL parameter library: polling tables that map change-flag bits to
    parameter groups, the flag decoder, and the value cache. */
module Ahl {
  import opened Bits
  import opened Text

  const FLAG_BITS: nat := 31
  const POLLING_PARAM := 2

  type Cache = map<int, Option<int>>

  predicate Ascending(s: seq<int>) {
    forall i, j | 0 <= i < j < |s| :: s[i] < s[j]
  }

  function Range(lo: int, hi: int): (r: seq<int>)
    requires lo <= hi
    ensures |r| == hi - lo && forall i | 0 <= i < |r| :: r[i] == lo + i
    ensures forall x :: x in r <==> lo <= x < hi
  {
    var r := seq(hi - lo, i requires 0 <= i < hi - lo => lo + i);
    RunCovers(r, lo);
    r
  }

  lemma RunCovers(r: seq<int>, lo: int)
    requires forall i | 0 <= i < |r| :: r[i] == lo + i
    ensures forall x :: lo <= x < lo + |r| ==> x in r
  {
    forall x | lo <= x < lo + |r| ensures x in r {
      assert r[x - lo] == x;
    }
  }

  /** Flags 0 to 7, the same for all firmware. Flag 0 leaves out parameter 2. */
  function LowGroup(bit: nat): (r: seq<int>)
    requires bit < 8
  {
    if bit == 0 then [0, 1] + Range(3, 16)
    else if bit <= 4 then Range(16 * bit, 16 * bit + 16)
    else if bit == 5 then Range(80, 94)
    else if bit == 6 then Range(94, 110)
    else Range(110, 126)
  }

  function OldGroup(bit: nat): (r: seq<int>)
    requires 8 <= bit < FLAG_BITS
  {
    if bit == 8 then [126] + Range(353, 368) else Range(224 + 16 * bit, 240 + 16 * bit)
  }

  function NewGroup(bit: nat): (r: seq<int>)
    requires 8 <= bit < FLAG_BITS
  {
    if bit == 8 then Range(126, 130) + Range(353, 365)
    else if bit <= 20 then Range(16 * bit - 14, 16 * bit + 2)
    else if bit == 21 then Range(322, 334) + [335, 336, 338, 339]
    else if bit == 22 then [340, 344, 345] + Range(347, 353) + Range(365, 372)
    else Range(16 * bit + 4, 16 * bit + 20)
  }

  /** The parameters behind flag `bit`, for new or old lift firmware. */
  function Group(newTable: bool, bit: nat): (r: seq<int>)
    requires bit < FLAG_BITS
  {
    if bit < 8 then LowGroup(bit) else if newTable then NewGroup(bit) else OldGroup(bit)
  }

  /** The one flag that covers parameter `p`, or -1: an arithmetic description
      of the tables that does not mention their lists. */
  function FlagOf(newTable: bool, p: int): (b: int)
    ensures -1 <= b < FLAG_BITS
  {
    if p < 0 || p == POLLING_PARAM then -1
    else if p < 80 then p / 16
    else if p < 94 then 5
    else if p < 110 then 6
    else if p < 126 then 7
    else if !newTable then
      if p == 126 || 353 <= p < 368 then 8
      else if 368 <= p < 720 then (p - 224) / 16
      else -1
    else if p < 130 || 353 <= p < 365 then 8
    else if p < 322 then (p + 14) / 16
    else if p < 334 || p in {335, 336, 338, 339} then 21
    else if p in {340, 344, 345} || 347 <= p < 353 || 365 <= p < 372 then 22
    else if 372 <= p < 500 then (p - 4) / 16
    else -1
  }

  /** Groups are pairwise disjoint and hold what the arithmetic says. */
  lemma GroupMembers(newTable: bool, bit: nat, p: int)
    requires bit < FLAG_BITS
    ensures p in Group(newTable, bit) <==> FlagOf(newTable, p) == bit
  {
    if bit >= 8 {
      if newTable { NewGroupMembers(bit, p); } else { OldGroupMembers(bit, p); }
    }
  }

  lemma OldGroupMembers(bit: nat, p: int)
    requires 8 <= bit < FLAG_BITS
    ensures p in OldGroup(bit) <==> FlagOf(false, p) == bit
  {
  }

  lemma NewGroupMembers(bit: nat, p: int)
    requires 8 <= bit < FLAG_BITS
    ensures p in NewGroup(bit) <==> FlagOf(true, p) == bit
  {
    if 9 <= bit <= 20 || 23 <= bit {
      assert p in NewGroup(bit) <==> NewGroup(bit)[0] <= p < NewGroup(bit)[0] + 16;
    }
  }

  lemma GroupAscending(newTable: bool, bit: nat)
    requires bit < FLAG_BITS
    ensures Ascending(Group(newTable, bit))
  {
    if bit == 8 {
      Appended([126], Range(353, 368));
      Appended(Range(126, 130), Range(353, 365));
    } else if bit == 21 {
      Appended(Range(322, 334), [335, 336, 338, 339]);
    } else if bit == 22 {
      Appended([340, 344, 345], Range(347, 353));
      Appended([340, 344, 345] + Range(347, 353), Range(365, 372));
    }
  }

  lemma Appended(a: seq<int>, b: seq<int>)
    requires Ascending(a) && Ascending(b)
    requires a != [] && b != [] && a[|a| - 1] < b[0]
    ensures Ascending(a + b)
  {
  }

  /** Specification of the decoder: the groups of the set bits below `n`, in
      bit order. */
  function DecodeTo(newTable: bool, mask: int, n: nat): (r: seq<int>)
    requires n <= FLAG_BITS
  {
    if n == 0 then []
    else DecodeTo(newTable, mask, n - 1) + (if Bit(mask, n - 1) then Group(newTable, n - 1) else [])
  }

  function Decode(newTable: bool, mask: int): (r: seq<int>) {
    DecodeTo(newTable, mask, FLAG_BITS)
  }

  lemma {:induction false} DecodeToMembers(newTable: bool, mask: int, n: nat, p: int)
    requires n <= FLAG_BITS
    ensures p in DecodeTo(newTable, mask, n)
       <==> 0 <= FlagOf(newTable, p) < n && Bit(mask, FlagOf(newTable, p))
  {
    if n > 0 {
      DecodeToMembers(newTable, mask, n - 1, p);
      GroupMembers(newTable, n - 1, p);
    }
  }

  /** For every integer mask: a parameter is decoded iff its flag is set. */
  lemma DecodeMembers(newTable: bool, mask: int, p: int)
    ensures p in Decode(newTable, mask)
       <==> FlagOf(newTable, p) >= 0 && Bit(mask, FlagOf(newTable, p))
  {
    DecodeToMembers(newTable, mask, FLAG_BITS, p);
  }

  predicate Before(newTable: bool, p: int, q: int) {
    FlagOf(newTable, p) < FlagOf(newTable, q) || (FlagOf(newTable, p) == FlagOf(newTable, q) && p < q)
  }

  lemma GroupOrdered(newTable: bool, bit: nat, i: nat, j: nat)
    requires bit < FLAG_BITS && i < j < |Group(newTable, bit)|
    ensures Before(newTable, Group(newTable, bit)[i], Group(newTable, bit)[j])
  {
    var g := Group(newTable, bit);
    GroupAscending(newTable, bit);
    GroupMembers(newTable, bit, g[i]);
    GroupMembers(newTable, bit, g[j]);
  }

  lemma LaterGroup(newTable: bool, mask: int, n: nat, p: int, q: int)
    requires n < FLAG_BITS && p in DecodeTo(newTable, mask, n) && q in Group(newTable, n)
    ensures Before(newTable, p, q)
  {
    DecodeToMembers(newTable, mask, n, p);
    GroupMembers(newTable, n, q);
  }

  /** The order of a decoded list: by flag, then by number. With `DecodeMembers` this
      leaves one list only, and no parameter twice in it. */
  lemma {:induction false} DecodeToOrdered(newTable: bool, mask: int, n: nat, i: nat, j: nat)
    requires n <= FLAG_BITS && i < j < |DecodeTo(newTable, mask, n)|
    ensures Before(newTable, DecodeTo(newTable, mask, n)[i], DecodeTo(newTable, mask, n)[j])
  {
    var front := DecodeTo(newTable, mask, n - 1);
    if j < |front| {
      DecodeToOrdered(newTable, mask, n - 1, i, j);
    } else if i >= |front| {
      GroupOrdered(newTable, n - 1, i - |front|, j - |front|);
    } else {
      LaterGroup(newTable, mask, n - 1, front[i], DecodeTo(newTable, mask, n)[j]);
    }
  }

  ghost function Below(n: nat): (r: set<nat>)
    ensures forall b: nat :: b in r <==> b < n
  {
    if n == 0 then {} else Below(n - 1) + {n - 1}
  }

  lemma FlagBound()
    ensures Pow2(FLAG_BITS) == 0x8000_0000
  {
    var a, b := 8, 7;
    assert Pow2(a) == 256 && Pow2(b) == 128;
    Pow2Add(a, a);
    Pow2Add(a + a, a);
    Pow2Add(a + a + a, b);
  }

  /** The mask the forced sweep decodes selects the whole table. */
  lemma AllFlags(i: nat)
    requires i < FLAG_BITS
    ensures Bit(0x7FFF_FFFF, i)
  {
    MaskBit(Below(FLAG_BITS), 0, FLAG_BITS, i);
    FullMask(Below(FLAG_BITS), 0, FLAG_BITS);
    FlagBound();
  }

  /** Cache update and the list of changes it reports. */
  function CacheSet(db: Cache, p: int, v: int): (r: (Cache, seq<int>)) {
    if p !in db || db[p] == Some(v) then (db, []) else (db[p := Some(v)], [p])
  }

  /** An entry of the database replaced; a parameter it does not know is ignored. */
  function Put(db: Cache, p: int, v: int): Cache {
    if p in db then db[p := Some(v)] else db
  }

  datatype LibCode = NoErr | ParamNotInDb | ParamNotSet

  class AhlLib {
    var database: Cache
    var newTable: bool

    constructor (params: set<int>)
      ensures database == (map p | p in params :: None) && !newTable
    {
      database := map p | p in params :: None;
      newTable := false;
    }

    method GetParam(p: int) returns (v: int, code: LibCode)
      ensures code == NoErr <==> p in database && database[p] == Some(v)
      ensures code == ParamNotInDb <==> p !in database
      ensures code != NoErr ==> v == -1
    {
      if p !in database { return -1, ParamNotInDb; }
      if database[p] == None { return -1, ParamNotSet; }
      return database[p].value, NoErr;
    }

    method SetParam(p: int, v: int) returns (changed: seq<int>, code: LibCode)
      modifies this`database
      ensures (database, changed) == CacheSet(old(database), p, v)
      ensures changed == if p in old(database) && old(database)[p] != Some(v) then [p] else []
      ensures database == Put(old(database), p, v)
      ensures code == NoErr <==> p in old(database)
      ensures database.Keys == old(database.Keys)
    {
      if p !in database { return [], ParamNotInDb; }
      if database[p] == Some(v) { return [], NoErr; }
      database := database[p := Some(v)];
      return [p], NoErr;
    }

    method SetPollingTable(useNew: bool)
      modifies this`newTable
      ensures newTable == useNew
    {
      newTable := useNew;
    }

    method DecodeChangeFlags(bitmask: int) returns (changed: seq<int>)
      ensures changed == Decode(newTable, bitmask)
    {
      changed := [];
      for bit := 0 to FLAG_BITS
        invariant changed == DecodeTo(newTable, bitmask, bit)
      {
        AndPow2(bitmask, bit);
        if And(bitmask, Pow2(bit)) != 0 {
          changed := changed + Group(newTable, bit);
        }
      }
    }
  }
}
