/** Routing of decoded serial frames: status, wanted answer, everything else, and
    two backlogs kept between calls (door notifications and VFD results). */
module FrameRouter {
  import opened Text

  datatype Code = NoErr | ArgTypeErr | FrameErr

  /** A decoded frame; `valid` is the outcome of its own validation. */
  datatype Frame = Frame(cmd: string, kind: Option<string>, valid: bool, content: int)

  datatype Place = Status | Wanted | Other | DoorBacklog | VfdBacklog

  const VFD_CAP := 50

  /** Where a frame belongs. */
  function Route(f: Frame, wantedCmd: string, wantedType: string): Place {
    if f.cmd == "vfdResult" then VfdBacklog
    else if f.cmd == "operation" && f.kind == Some("130") then Status
    else if f.cmd == "operation" && f.kind == Some("135") then DoorBacklog
    else if f.cmd == wantedCmd && ((wantedType != "" && f.kind == Some(wantedType)) || f.kind == None) then Wanted
    else Other
  }

  /** The frames before the first invalid one. */
  function ValidPrefix(frames: seq<Frame>): (r: seq<Frame>) {
    if frames == [] || !frames[0].valid then [] else [frames[0]] + ValidPrefix(frames[1..])
  }

  /** The longest part from the front without an invalid frame. */
  lemma {:induction false} LongestValid(frames: seq<Frame>)
    ensures ValidPrefix(frames) <= frames && forall f | f in ValidPrefix(frames) :: f.valid
    ensures ValidPrefix(frames) == frames || !frames[|ValidPrefix(frames)|].valid
  {
    if frames != [] && frames[0].valid {
      LongestValid(frames[1..]);
      assert frames == [frames[0]] + frames[1..];
    }
  }

  function Select(frames: seq<Frame>, wantedCmd: string, wantedType: string, place: Place): seq<Frame> {
    if frames == [] then []
    else
      var front, f := frames[..|frames| - 1], frames[|frames| - 1];
      Select(front, wantedCmd, wantedType, place) + Share(f, wantedCmd, wantedType, place)
  }

  /** A frame adds itself to its own place and nothing to the others. */
  function Share(f: Frame, wantedCmd: string, wantedType: string, place: Place): seq<Frame> {
    if Route(f, wantedCmd, wantedType) == place then [f] else []
  }

  /** The last `n` elements. */
  function Latest<T>(s: seq<T>, n: nat): seq<T> {
    if |s| <= n then s else s[|s| - n..]
  }

  lemma LatestAppend<T>(s: seq<T>, x: T, n: nat)
    requires n > 0
    ensures Latest(Latest(s, n) + [x], n) == Latest(s + [x], n)
  {
  }

  /** Every frame lands in exactly one place: together the places hold exactly the
      frames, as often as they occur. */
  lemma {:induction false} Conserved(frames: seq<Frame>, wantedCmd: string, wantedType: string)
    ensures multiset(frames)
         == multiset(Select(frames, wantedCmd, wantedType, Status))
          + multiset(Select(frames, wantedCmd, wantedType, Wanted))
          + multiset(Select(frames, wantedCmd, wantedType, Other))
          + multiset(Select(frames, wantedCmd, wantedType, DoorBacklog))
          + multiset(Select(frames, wantedCmd, wantedType, VfdBacklog))
  {
    if frames != [] {
      var front, f := frames[..|frames| - 1], frames[|frames| - 1];
      assert frames == front + [f];
      Conserved(front, wantedCmd, wantedType);
      SharesOnce(f, wantedCmd, wantedType);
      forall place ensures multiset(Select(frames, wantedCmd, wantedType, place))
        == multiset(Select(front, wantedCmd, wantedType, place)) + multiset(Share(f, wantedCmd, wantedType, place))
      { SelectLast(frames, wantedCmd, wantedType, place); }
    }
  }

  lemma SharesOnce(f: Frame, wantedCmd: string, wantedType: string)
    ensures multiset{f}
         == multiset(Share(f, wantedCmd, wantedType, Status))
          + multiset(Share(f, wantedCmd, wantedType, Wanted))
          + multiset(Share(f, wantedCmd, wantedType, Other))
          + multiset(Share(f, wantedCmd, wantedType, DoorBacklog))
          + multiset(Share(f, wantedCmd, wantedType, VfdBacklog))
  {
  }

  lemma AppendLater<T>(a: seq<T>, b: seq<T>, c: seq<T>)
    ensures (a + b) + c == a + (b + c)
  {
  }

  lemma SelectLast(frames: seq<Frame>, wantedCmd: string, wantedType: string, place: Place)
    requires frames != []
    ensures Select(frames, wantedCmd, wantedType, place)
         == Select(frames[..|frames| - 1], wantedCmd, wantedType, place) + Share(frames[|frames| - 1], wantedCmd, wantedType, place)
  {
  }

  /** The frame at position `j` of a place came from position `From(j)` of the
      input, and these positions ascend: order is kept. */
  ghost function From(frames: seq<Frame>, wantedCmd: string, wantedType: string, place: Place, j: nat): (k: nat)
    requires j < |Select(frames, wantedCmd, wantedType, place)|
    ensures k < |frames| && frames[k] == Select(frames, wantedCmd, wantedType, place)[j]
    ensures Route(frames[k], wantedCmd, wantedType) == place
  {
    var front := frames[..|frames| - 1];
    if j < |Select(front, wantedCmd, wantedType, place)| then From(front, wantedCmd, wantedType, place, j)
    else |frames| - 1
  }

  lemma {:induction false} OrderKept(frames: seq<Frame>, wantedCmd: string, wantedType: string, place: Place, i: nat, j: nat)
    requires i < j < |Select(frames, wantedCmd, wantedType, place)|
    ensures From(frames, wantedCmd, wantedType, place, i) < From(frames, wantedCmd, wantedType, place, j)
  {
    var front := frames[..|frames| - 1];
    if j < |Select(front, wantedCmd, wantedType, place)| {
      OrderKept(front, wantedCmd, wantedType, place, i, j);
    }
  }

  /** `part` keeps the order of `frames`: its elements sit at ascending positions. */
  ghost predicate Subsequence(part: seq<Frame>, frames: seq<Frame>) {
    exists at: seq<nat> :: Places(part, frames, at)
  }

  ghost predicate Places(part: seq<Frame>, frames: seq<Frame>, at: seq<nat>) {
    && |at| == |part|
    && (forall j | 0 <= j < |at| :: at[j] < |frames| && frames[at[j]] == part[j])
    && (forall i, j | 0 <= i < j < |at| :: at[i] < at[j])
  }

  lemma SelectInOrder(frames: seq<Frame>, wantedCmd: string, wantedType: string, place: Place)
    ensures Subsequence(Select(frames, wantedCmd, wantedType, place), frames)
    ensures forall f | f in Select(frames, wantedCmd, wantedType, place) :: Route(f, wantedCmd, wantedType) == place
  {
    var part := Select(frames, wantedCmd, wantedType, place);
    var at: seq<nat> := seq(|part|, j requires 0 <= j < |part| => From(frames, wantedCmd, wantedType, place, j));
    forall i, j | 0 <= i < j < |at| ensures at[i] < at[j] {
      OrderKept(frames, wantedCmd, wantedType, place, i, j);
    }
    assert Places(part, frames, at);
    forall f | f in part ensures Route(f, wantedCmd, wantedType) == place {
      var j :| 0 <= j < |part| && part[j] == f;
      assert frames[From(frames, wantedCmd, wantedType, place, j)] == f;
    }
  }

  /** The frames, dealt out: each to exactly one list, as often as it occurs, and in
      the order of arrival within each. */
  ghost predicate Dealt(frames: seq<Frame>, status: seq<Frame>, wanted: seq<Frame>, other: seq<Frame>, door: seq<Frame>, vfd: seq<Frame>) {
    && multiset(frames) == multiset(status) + multiset(wanted) + multiset(other) + multiset(door) + multiset(vfd)
    && Subsequence(status, frames) && Subsequence(wanted, frames) && Subsequence(other, frames)
    && Subsequence(door, frames) && Subsequence(vfd, frames)
  }

  lemma SelectDeals(frames: seq<Frame>, wantedCmd: string, wantedType: string)
    ensures Dealt(frames, Select(frames, wantedCmd, wantedType, Status), Select(frames, wantedCmd, wantedType, Wanted),
                  Select(frames, wantedCmd, wantedType, Other), Select(frames, wantedCmd, wantedType, DoorBacklog),
                  Select(frames, wantedCmd, wantedType, VfdBacklog))
  {
    Conserved(frames, wantedCmd, wantedType);
    SelectInOrder(frames, wantedCmd, wantedType, Status);
    SelectInOrder(frames, wantedCmd, wantedType, Wanted);
    SelectInOrder(frames, wantedCmd, wantedType, Other);
    SelectInOrder(frames, wantedCmd, wantedType, DoorBacklog);
    SelectInOrder(frames, wantedCmd, wantedType, VfdBacklog);
  }

  /** The frame answers what was asked for. */
  predicate Answers(f: Frame, wantedCmd: string, wantedType: string) {
    f.cmd == wantedCmd && (f.kind == None || (wantedType != "" && f.kind == Some(wantedType)))
  }

  predicate Notice(f: Frame, kind: string) {
    f.cmd == "operation" && f.kind == Some(kind)
  }

  /** Every list holds only what belongs there. */
  predicate Fits(wantedCmd: string, wantedType: string, status: seq<Frame>, wanted: seq<Frame>, other: seq<Frame>, door: seq<Frame>, vfd: seq<Frame>) {
    && (forall f | f in status :: Notice(f, "130")) && (forall f | f in door :: Notice(f, "135"))
    && (forall f | f in vfd :: f.cmd == "vfdResult")
    && (forall f | f in wanted :: Answers(f, wantedCmd, wantedType))
    && (forall f | f in other :: !Answers(f, wantedCmd, wantedType) && f.cmd != "vfdResult" && !Notice(f, "130") && !Notice(f, "135"))
  }

  lemma SelectFits(frames: seq<Frame>, wantedCmd: string, wantedType: string)
    ensures Fits(wantedCmd, wantedType, Select(frames, wantedCmd, wantedType, Status), Select(frames, wantedCmd, wantedType, Wanted),
                 Select(frames, wantedCmd, wantedType, Other), Select(frames, wantedCmd, wantedType, DoorBacklog),
                 Select(frames, wantedCmd, wantedType, VfdBacklog))
  {
    SelectInOrder(frames, wantedCmd, wantedType, Status);
    SelectInOrder(frames, wantedCmd, wantedType, Wanted);
    SelectInOrder(frames, wantedCmd, wantedType, Other);
    SelectInOrder(frames, wantedCmd, wantedType, DoorBacklog);
    SelectInOrder(frames, wantedCmd, wantedType, VfdBacklog);
  }

  class Router {
    var doorBacklog: seq<Frame>
    var vfdBacklog: seq<Frame>
    ghost var vfdSeen: seq<Frame>  // every VFD result since the last drain

    /** The VFD backlog is the latest 50 results, or all if there are fewer. */
    ghost predicate Valid()
      reads this
    {
      vfdBacklog == Latest(vfdSeen, VFD_CAP)
    }

    constructor ()
      ensures Valid() && doorBacklog == [] && vfdSeen == []
    {
      doorBacklog, vfdBacklog, vfdSeen := [], [], [];
    }

    /** A bounded queue: at the cap the oldest entry makes room. */
    method AppendVfd(f: Frame)
      requires Valid()
      modifies this
      ensures Valid() && vfdSeen == old(vfdSeen) + [f] && doorBacklog == old(doorBacklog)
    {
      LatestAppend(vfdSeen, f, VFD_CAP);
      if |vfdBacklog| == VFD_CAP { vfdBacklog := vfdBacklog[1..]; }
      vfdBacklog := vfdBacklog + [f];
      vfdSeen := vfdSeen + [f];
    }

    method Validated(frames: seq<Frame>) returns (good: seq<Frame>, code: Code)
      ensures good == ValidPrefix(frames)
      ensures code == NoErr <==> forall f | f in frames :: f.valid
      ensures code == NoErr || code == FrameErr
      ensures code == NoErr ==> good == frames
    {
      good, code := [], NoErr;
      for i := 0 to |frames|
        invariant good == frames[..i]
        invariant forall f | f in frames[..i] :: f.valid
        invariant ValidPrefix(frames) == frames[..i] + ValidPrefix(frames[i..])
      {
        assert frames[i..][1..] == frames[i + 1..] && frames[..i + 1] == frames[..i] + [frames[i]];
        if !frames[i].valid {
          assert frames[i] in frames;
          return good, FrameErr;
        }
        good := good + [frames[i]];
      }
      assert frames[..|frames|] == frames && ValidPrefix(frames[|frames|..]) == [];
    }

    /** One frame goes to its own place. */
    method RouteOne(f: Frame, wantedCmd: string, wantedType: string, status: seq<Frame>, wanted: seq<Frame>, other: seq<Frame>)
      returns (status': seq<Frame>, wanted': seq<Frame>, other': seq<Frame>)
      requires Valid()
      modifies this
      ensures Valid()
      ensures status' == status + Share(f, wantedCmd, wantedType, Status)
      ensures wanted' == wanted + Share(f, wantedCmd, wantedType, Wanted)
      ensures other' == other + Share(f, wantedCmd, wantedType, Other)
      ensures doorBacklog == old(doorBacklog) + Share(f, wantedCmd, wantedType, DoorBacklog)
      ensures vfdSeen == old(vfdSeen) + Share(f, wantedCmd, wantedType, VfdBacklog)
    {
      status', wanted', other' := status, wanted, other;
      if f.cmd == "vfdResult" {
        AppendVfd(f);
      } else if f.cmd == "operation" && (f.kind == Some("130") || f.kind == Some("135")) {
        if f.kind == Some("130") { status' := status + [f]; } else { doorBacklog := doorBacklog + [f]; }
      } else if f.cmd == wantedCmd {
        if wantedType != "" && f.kind == Some(wantedType) { wanted' := wanted + [f]; }
        else if f.kind == None { wanted' := wanted + [f]; }
        else { other' := other + [f]; }
      } else {
        other' := other + [f];
      }
    }

    /** Sort valid frames into their places. */
    method RouteAll(good: seq<Frame>, wantedCmd: string, wantedType: string)
      returns (status: seq<Frame>, wanted: seq<Frame>, other: seq<Frame>)
      requires Valid()
      modifies this
      ensures Valid()
      ensures status == Select(good, wantedCmd, wantedType, Status)
      ensures wanted == Select(good, wantedCmd, wantedType, Wanted)
      ensures other == Select(good, wantedCmd, wantedType, Other)
      ensures doorBacklog == old(doorBacklog) + Select(good, wantedCmd, wantedType, DoorBacklog)
      ensures vfdSeen == old(vfdSeen) + Select(good, wantedCmd, wantedType, VfdBacklog)
    {
      status, wanted, other := [], [], [];
      for i := 0 to |good|
        invariant Valid()
        invariant status == Select(good[..i], wantedCmd, wantedType, Status)
        invariant wanted == Select(good[..i], wantedCmd, wantedType, Wanted)
        invariant other == Select(good[..i], wantedCmd, wantedType, Other)
        invariant doorBacklog == old(doorBacklog) + Select(good[..i], wantedCmd, wantedType, DoorBacklog)
        invariant vfdSeen == old(vfdSeen) + Select(good[..i], wantedCmd, wantedType, VfdBacklog)
      {
        ghost var now, next := good[..i], good[..i + 1];
        assert next[..|next| - 1] == now;
        status, wanted, other := RouteOne(good[i], wantedCmd, wantedType, status, wanted, other);
        SelectLast(next, wantedCmd, wantedType, Status);
        SelectLast(next, wantedCmd, wantedType, Wanted);
        SelectLast(next, wantedCmd, wantedType, Other);
        SelectLast(next, wantedCmd, wantedType, DoorBacklog);
        SelectLast(next, wantedCmd, wantedType, VfdBacklog);
        AppendLater(old(doorBacklog), Select(now, wantedCmd, wantedType, DoorBacklog), Share(good[i], wantedCmd, wantedType, DoorBacklog));
        AppendLater(old(vfdSeen), Select(now, wantedCmd, wantedType, VfdBacklog), Share(good[i], wantedCmd, wantedType, VfdBacklog));
      }
      assert good[..|good|] == good;
    }

    /** Every frame goes to one list, which is the right one for it. */
    method Deal(good: seq<Frame>, wantedCmd: string, wantedType: string)
      returns (status: seq<Frame>, wanted: seq<Frame>, other: seq<Frame>)
      requires Valid()
      modifies this
      ensures Valid() && old(doorBacklog) <= doorBacklog && old(vfdSeen) <= vfdSeen
      ensures Dealt(good, status, wanted, other, doorBacklog[|old(doorBacklog)|..], vfdSeen[|old(vfdSeen)|..])
      ensures Fits(wantedCmd, wantedType, status, wanted, other, doorBacklog[|old(doorBacklog)|..], vfdSeen[|old(vfdSeen)|..])
    {
      status, wanted, other := RouteAll(good, wantedCmd, wantedType);
      SelectDeals(good, wantedCmd, wantedType);
      SelectFits(good, wantedCmd, wantedType);
      assert doorBacklog[|old(doorBacklog)|..] == Select(good, wantedCmd, wantedType, DoorBacklog);
      assert vfdSeen[|old(vfdSeen)|..] == Select(good, wantedCmd, wantedType, VfdBacklog);
    }

    /** Validate and sort the frames of one response. `decoded` is None when the text
        is not a sequence of JSON objects. */
    method SplitResponse(decoded: Option<seq<Frame>>, wantedCmd: string, wantedType: string)
      returns (status: seq<Frame>, wanted: seq<Frame>, other: seq<Frame>, code: Code)
      requires Valid()
      modifies this
      ensures Valid()
      ensures code == ArgTypeErr <==> (wantedCmd == "operation" && wantedType == "") || decoded.None? || decoded == Some([])
      ensures code == ArgTypeErr ==> doorBacklog == old(doorBacklog) && vfdSeen == old(vfdSeen)
      ensures code != ArgTypeErr ==> (code == NoErr <==> forall f | f in decoded.value :: f.valid)
      ensures code != ArgTypeErr ==>
        && old(doorBacklog) <= doorBacklog && old(vfdSeen) <= vfdSeen
        && Dealt(ValidPrefix(decoded.value), status, wanted, other, doorBacklog[|old(doorBacklog)|..], vfdSeen[|old(vfdSeen)|..])
      ensures code != ArgTypeErr ==>
        Fits(wantedCmd, wantedType, status, wanted, other, doorBacklog[|old(doorBacklog)|..], vfdSeen[|old(vfdSeen)|..])
    {
      status, wanted, other := [], [], [];
      if wantedCmd == "operation" && wantedType == "" { return [], [], [], ArgTypeErr; }
      if decoded.None? || decoded == Some([]) { return [], [], [], ArgTypeErr; }
      var good;
      good, code := Validated(decoded.value);
      status, wanted, other := Deal(good, wantedCmd, wantedType);
    }

    /** Hand over the VFD results and start afresh. */
    method DrainVfd() returns (results: seq<Frame>)
      requires Valid()
      modifies this
      ensures Valid() && vfdSeen == [] && vfdBacklog == [] && doorBacklog == old(doorBacklog)
      ensures |old(vfdSeen)| > 50 ==> results == old(vfdSeen)[|old(vfdSeen)| - 50..]
      ensures |old(vfdSeen)| <= 50 ==> results == old(vfdSeen)
    {
      results := vfdBacklog;
      vfdBacklog, vfdSeen := [], [];
    }
  }
}
