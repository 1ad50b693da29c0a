/** The reply of a 1k poll: changed parameter ids joined by 'x', and its parsing. */
module PollReply {
  import opened Text

  datatype Code = NoErr | PartialErr | NoUpdatedParams | OtherErr

  /** The ids as text, separated by 'x'. */
  function Join(ids: seq<int>): string {
    if ids == [] then ""
    else if |ids| == 1 then Dec(ids[0])
    else Dec(ids[0]) + "x" + Join(ids[1..])
  }

  /** What `poll_lift` returns for the updated ids, given whether a package failed. */
  function PollLift(ids: seq<int>, partial: bool): (r: (string, Code))
    ensures r.1 == PartialErr <==> partial
    ensures r.1 == NoErr <==> !partial && ids != []
    ensures r.1 == NoUpdatedParams <==> !partial && ids == []
  {
    if ids == [] then ("0", if partial then PartialErr else NoUpdatedParams)
    else (Join(ids), if partial then PartialErr else NoErr)
  }

  function Split(s: string): (r: seq<string>)
    ensures r != []
  {
    if s == "" then [""]
    else
      var r := Split(s[1..]);
      if s[0] == 'x' then [""] + r else [[s[0]] + r[0]] + r[1..]
  }

  /** `[int(p) for p in parts if p]`; None is a ValueError. */
  function ParseAll(parts: seq<string>): Option<seq<int>> {
    if parts == [] then Some([])
    else
      match ParseAll(parts[1..])
      case None => None
      case Some(rest) =>
        if parts[0] == "" then Some(rest)
        else
          match ParseDecimal(parts[0])
          case None => None
          case Some(n) => Some([n] + rest)
  }

  /** What `poll_params` makes of a reply. */
  function Changed(reply: string, code: Code): seq<int> {
    if code != NoErr && code != PartialErr then []
    else if reply == "0" then []
    else
      match ParseAll(Split(reply))
      case None => []
      case Some(ids) => ids
  }

  /** Any other code, and any reply that is not a list of numbers, is no change. */
  lemma NoChange(reply: string, code: Code)
    ensures (code != NoErr && code != PartialErr) || reply == "0" || ParseAll(Split(reply)).None? ==> Changed(reply, code) == []
  {
  }

  lemma {:induction false} SplitWord(w: string, rest: string)
    requires 'x' !in w
    ensures Split(w) == [w] && Split(w + "x" + rest) == [w] + Split(rest)
  {
    if w == "" {
      assert "" + "x" + rest == "x" + rest;
    } else {
      SplitWord(w[1..], rest);
      var s := w + "x" + rest;
      assert s[1..] == w[1..] + "x" + rest;
      assert [s[0]] + w[1..] == w;
      assert ([w[1..]] + Split(rest))[1..] == Split(rest);
    }
  }

  lemma {:induction false} JoinParses(ids: seq<int>)
    requires ids != []
    ensures ParseAll(Split(Join(ids))) == Some(ids)
  {
    var w := Dec(ids[0]);
    DecParses(ids[0]);
    if |ids| == 1 {
      SplitWord(w, "");
      assert ParseAll([w][1..]) == Some([]) && [ids[0]] + [] == ids;
    } else {
      JoinParses(ids[1..]);
      var rest := Split(Join(ids[1..]));
      SplitWord(w, Join(ids[1..]));
      assert ([w] + rest)[1..] == rest;
      assert [ids[0]] + ids[1..] == ids;
    }
  }

  lemma JoinIsZero(ids: seq<int>)
    requires ids != []
    ensures Join(ids) == "0" <==> ids == [0]
  {
    DecParses(ids[0]);
    assert Dec(0) == "0";
    if |ids| > 1 {
      assert |Join(ids)| > 1;
    } else if Dec(ids[0]) == "0" {
      DecInjective(ids[0], 0);
    }
  }

  /** The round trip returns the exact id list, except that a lone parameter 0
      shares its reply with "nothing changed". */
  lemma ReplyRoundTrip(ids: seq<int>, partial: bool)
    ensures Changed(PollLift(ids, partial).0, PollLift(ids, partial).1) == if ids == [0] then [] else ids
  {
    if ids != [] {
      JoinIsZero(ids);
      JoinParses(ids);
    }
  }
}
