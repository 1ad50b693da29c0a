/** What a poll of the AHL library does to its cache, and what it reports of it. */
module CacheReports {
  import opened Bits
  import opened Text
  import opened Ahl
  import opened LiftProxyModel
  import R = ModbusRegisters

  /** No parameter twice. */
  ghost predicate NoRepeats(s: seq<int>) {
    forall i, j | 0 <= i < j < |s| :: s[i] != s[j]
  }

  /** `changed` names exactly the parameters whose cached value differs, each once. */
  ghost predicate Told(changed: seq<int>, before: Cache, after: Cache) {
    && NoRepeats(changed) && before.Keys == after.Keys
    && forall p :: p in changed <==> p in before && after[p] != before[p]
  }

  /** What a parameter's entry is after a read that was served. */
  function Fetched(lcm: Lcm, p: int, was: Option<int>): Option<int> {
    if Held(lcm, p) == R.DEAD_VALUE then was else Some(Held(lcm, p))
  }

  /** Exactly what is asked for and has a value is fetched, and nothing else changes. */
  ghost predicate Fetches(lcm: Lcm, wanted: iset<int>, before: Cache, after: Cache) {
    && before.Keys == after.Keys
    && forall p | p in before :: after[p] == if p in wanted then Fetched(lcm, p, before[p]) else before[p]
  }

  /** One parameter read: at most its own entry changes, and a change is reported. */
  ghost predicate OneTold(before: Cache, after: Cache, p: int, news: seq<int>) {
    && before.Keys == after.Keys && (forall q | q in before && q != p :: after[q] == before[q])
    && news == if p in before && after[p] != before[p] then [p] else []
  }

  /** The sweep has dealt with `done`. */
  ghost predicate ToldSoFar(before: Cache, now: Cache, done: seq<int>, changed: seq<int>) {
    Told(changed, before, now) && forall p | p in before && p !in done :: now[p] == before[p]
  }

  lemma TellOneMore(before: Cache, now: Cache, after: Cache, done: seq<int>, p: int, changed: seq<int>, news: seq<int>)
    requires ToldSoFar(before, now, done, changed) && p !in done && OneTold(now, after, p, news)
    ensures ToldSoFar(before, after, done + [p], changed + news)
  {
    assert p !in changed by { if p in before { assert now[p] == before[p]; } }
    forall q ensures q in changed + news <==> q in before && after[q] != before[q] {
      if q == p { assert q in before ==> now[q] == before[q]; }
    }
  }

  ghost function Members(s: seq<int>): iset<int> {
    iset p: int | p in s
  }

  lemma FetchOneMore(lcm: Lcm, before: Cache, now: Cache, after: Cache, done: seq<int>, p: int)
    requires Fetches(lcm, Members(done), before, now) && p !in done
    requires now.Keys == after.Keys && forall q | q in now && q != p :: after[q] == now[q]
    requires p in after ==> after[p] == Fetched(lcm, p, now[p])
    ensures Fetches(lcm, Members(done + [p]), before, after)
  {
    forall q | q in before ensures after[q] == if q in Members(done + [p]) then Fetched(lcm, q, before[q]) else before[q] {
      assert q in Members(done + [p]) <==> q == p || q in Members(done);
    }
  }

  /** What the flag word asks for, whatever table decodes it. */
  ghost function Asked(newTable: bool, force: bool, flags: set<nat>): iset<int> {
    iset p: int | FlagOf(newTable, p) >= 0 && (force || FlagOf(newTable, p) in flags)
  }

  lemma WantedAsked(newTable: bool, force: bool, lcm: Lcm, r: R.ReadResult, p: int)
    requires LcmOk(lcm) && (force || r == Answer(lcm, POLLING_PARAM))
    ensures p in Wanted(newTable, force, r) <==> p in Asked(newTable, force, lcm.flags)
  {
    var b := FlagOf(newTable, p);
    var mask := if force then 0x7FFF_FFFF else r.value;
    DecodeMembers(newTable, mask, p);
    if b >= 0 {
      AllFlags(b);
      BitOfZero(b);
      MaskBit(lcm.flags, 0, FLAG_BITS, b);
    }
  }

  lemma WantedExactly(newTable: bool, force: bool, lcm: Lcm, r: R.ReadResult)
    requires LcmOk(lcm)
    ensures r == Answer(lcm, POLLING_PARAM) ==> Members(Wanted(newTable, force, r)) == Asked(newTable, force, lcm.flags)
  {
    if r == Answer(lcm, POLLING_PARAM) {
      forall p: int ensures p in Wanted(newTable, force, r) <==> p in Asked(newTable, force, lcm.flags) {
        WantedAsked(newTable, force, lcm, r, p);
      }
    }
  }

  /** Reading the flag word leaves every other value alone. */
  lemma FetchesSame(lcm: Lcm, wanted: iset<int>, before: Cache, after: Cache)
    requires Fetches(AfterRead(lcm, POLLING_PARAM), wanted, before, after)
    ensures Fetches(lcm, wanted, before, after)
  {
    forall p ensures Held(AfterRead(lcm, POLLING_PARAM), p) == Held(lcm, p) {}
  }

  lemma WantedOrdered(newTable: bool, force: bool, r: R.ReadResult)
    ensures NoRepeats(Wanted(newTable, force, r))
    ensures forall p | p in Wanted(newTable, force, r) :: p != POLLING_PARAM
  {
    var mask := if force then 0x7FFF_FFFF else r.value;
    forall i, j | 0 <= i < j < |Wanted(newTable, force, r)| ensures Wanted(newTable, force, r)[i] != Wanted(newTable, force, r)[j] {
      DecodeToOrdered(newTable, mask, FLAG_BITS, i, j);
    }
    forall p | p in Wanted(newTable, force, r) ensures p != POLLING_PARAM { DecodeMembers(newTable, mask, p); }
  }

  function Wanted(newTable: bool, force: bool, r: R.ReadResult): seq<int> {
    if !force && (r.code != R.NoErr || r.value == 0) then []
    else Decode(newTable, if force then 0x7FFF_FFFF else r.value)
  }

  lemma SweptOn(lcm: Lcm, before: Cache, now: Cache, after: Cache, candidates: seq<int>, i: nat,
                changed: seq<int>, news: seq<int>, raised: bool)
    requires i < |candidates| && NoRepeats(candidates) && ToldSoFar(before, now, candidates[..i], changed)
    requires OneTold(now, after, candidates[i], news) && (raised ==> after == now && news == [])
    ensures ToldSoFar(before, after, candidates[..i + 1], changed + news)
    ensures Fetches(lcm, Members(candidates[..i]), before, now)
        && (candidates[i] in after ==> after[candidates[i]] == Fetched(lcm, candidates[i], now[candidates[i]]))
      ==> Fetches(lcm, Members(candidates[..i + 1]), before, after)
  {
    var done, p := candidates[..i], candidates[i];
    assert candidates[..i + 1] == done + [p] && p !in done;
    TellOneMore(before, now, after, done, p, changed, news);
    if Fetches(lcm, Members(done), before, now) && (p in after ==> after[p] == Fetched(lcm, p, now[p])) {
      FetchOneMore(lcm, before, now, after, done, p);
    }
  }
}
