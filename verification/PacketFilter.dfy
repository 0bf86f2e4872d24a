/**
 * `xdp_deepfake_filter` (core/nic_xdp.c:32-95) over whole packet histories, with the block map's
 * capacity.
 */
module PacketFilter {

  type Address = nat

  type Byte = b: nat | b < 256

  /** A frame after header parsing; `Other` is anything but IPv4 UDP. */
  datatype Packet = Other | Udp(src: Address, complete: bool, payload: seq<Byte>)

  datatype Verdict = Pass | Drop

  const BLOCK_THRESHOLD: nat := 5
  const MAX_ENTRIES: nat := 100000

  /** All of the first eight payload bytes that exist are the same. */
  ghost predicate LowVariance(payload: seq<Byte>) {
    forall i :: 0 < i < 8 && i < |payload| ==> payload[i] == payload[0]
  }

  ghost predicate Suspicious(p: Packet) {
    p.Udp? && p.complete && LowVariance(p.payload)
  }

  // ---------------------------------------------------------------- the specification

  /** Suspicious packets of a source so far. */
  ghost function SuspiciousCount(history: seq<Packet>, src: Address): nat {
    if history == [] then 0 else
    var p := history[|history| - 1];
    SuspiciousCount(history[..|history| - 1], src) + (if Suspicious(p) && p.src == src then 1 else 0)
  }

  /** The sources the map has room for: those whose first suspicious packet met a map not full. */
  ghost function Tracked(history: seq<Packet>): set<Address> {
    if history == [] then {} else
    var known, p := Tracked(history[..|history| - 1]), history[|history| - 1];
    if Suspicious(p) && |known| < MAX_ENTRIES then known + {p.src} else known
  }

  ghost predicate Blacklisted(history: seq<Packet>, src: Address) {
    src in Tracked(history) && SuspiciousCount(history, src) >= BLOCK_THRESHOLD
  }

  /** The verdict on a packet, from the history alone. */
  ghost function Expected(history: seq<Packet>, p: Packet): Verdict {
    if p.Udp? && (Blacklisted(history, p.src) || Suspicious(p)) then Drop else Pass
  }

  /** Packets dropped by the blacklist, and complete UDP packets let through. */
  ghost function BlockedCount(history: seq<Packet>): nat {
    if history == [] then 0 else
    var front, p := history[..|history| - 1], history[|history| - 1];
    BlockedCount(front) + (if p.Udp? && Blacklisted(front, p.src) then 1 else 0)
  }

  ghost function PassedCount(history: seq<Packet>): nat {
    if history == [] then 0 else
    var front, p := history[..|history| - 1], history[|history| - 1];
    PassedCount(front) + (if p.Udp? && p.complete && Expected(front, p) == Pass then 1 else 0)
  }

  ghost function CappedCount(history: seq<Packet>, src: Address): nat {
    if SuspiciousCount(history, src) < BLOCK_THRESHOLD then SuspiciousCount(history, src)
    else BLOCK_THRESHOLD
  }

  lemma {:induction false} NextPacket(past: seq<Packet>, p: Packet)
    ensures var all := past + [p];
            && (forall s :: SuspiciousCount(all, s)
                  == SuspiciousCount(past, s) + (if Suspicious(p) && p.src == s then 1 else 0))
            && Tracked(all) == (if Suspicious(p) && |Tracked(past)| < MAX_ENTRIES
                                then Tracked(past) + {p.src} else Tracked(past))
            && BlockedCount(all)
               == BlockedCount(past) + (if p.Udp? && Blacklisted(past, p.src) then 1 else 0)
            && PassedCount(all)
               == PassedCount(past) + (if p.Udp? && p.complete && Expected(past, p) == Pass then 1 else 0)
  {
    hide LowVariance, Blacklisted, Expected;
    assert (past + [p])[..|past|] == past;
  }

  /** While there is room, a source outside the map has not been suspicious yet. */
  lemma {:induction false} UntrackedIsNew(history: seq<Packet>, src: Address)
    requires |Tracked(history)| < MAX_ENTRIES && src !in Tracked(history)
    ensures SuspiciousCount(history, src) == 0
  {
    hide LowVariance;
    if history != [] {
      var known, p := Tracked(history[..|history| - 1]), history[|history| - 1];
      UntrackedIsNew(history[..|history| - 1], src);
    }
  }

  /** A packet that is not counted leaves the map right as it is. */
  lemma {:induction false} KeptAfter(past: seq<Packet>, p: Packet)
    requires Suspicious(p) ==> Blacklisted(past, p.src)
    ensures Tracked(past + [p]) == Tracked(past)
    ensures forall s :: CappedCount(past + [p], s) == CappedCount(past, s)
  {
    hide LowVariance;
    NextPacket(past, p);
  }

  /** A counted packet raises one entry by one, or adds it if there is room. */
  lemma {:induction false} CountedAfter(past: seq<Packet>, p: Packet)
    requires Suspicious(p) && !Blacklisted(past, p.src)
    ensures var known := Tracked(past);
            && Tracked(past + [p])
               == (if p.src in known || |known| < MAX_ENTRIES then known + {p.src} else known)
            && (forall s :: s in known && s != p.src ==> CappedCount(past + [p], s) == CappedCount(past, s))
            && (p.src in known ==> CappedCount(past + [p], p.src) == CappedCount(past, p.src) + 1)
            && (p.src !in known && |known| < MAX_ENTRIES ==> CappedCount(past + [p], p.src) == 1)
  {
    hide LowVariance;
    NextPacket(past, p);
    if p.src !in Tracked(past) && |Tracked(past)| < MAX_ENTRIES {
      UntrackedIsNew(past, p.src);
    }
  }

  // ---------------------------------------------------------------- consequences

  /** The sources with a suspicious packet. */
  ghost function SuspiciousSources(history: seq<Packet>): set<Address> {
    if history == [] then {} else
    var known, p := SuspiciousSources(history[..|history| - 1]), history[|history| - 1];
    if Suspicious(p) then known + {p.src} else known
  }

  lemma {:induction false} RoomForAll(history: seq<Packet>)
    ensures Tracked(history) <= SuspiciousSources(history)
    ensures |SuspiciousSources(history)| <= MAX_ENTRIES ==> Tracked(history) == SuspiciousSources(history)
    ensures forall s :: s in SuspiciousSources(history) <==> SuspiciousCount(history, s) > 0
  {
    hide LowVariance;
    if history != [] {
      var front := history[..|history| - 1];
      RoomForAll(front);
      var known, p := SuspiciousSources(front), history[|history| - 1];
      if Suspicious(p) && p.src !in known {
        assert |known + {p.src}| == |known| + 1;
      } else {
        assert SuspiciousSources(history) == known;
      }
    }
  }

  /**
   * Main theorem: while no more sources than the map holds have been suspicious, a UDP packet is
   * dropped exactly when it is suspicious itself or five earlier ones of its source were.
   */
  lemma {:induction false} VerdictFromHistory(history: seq<Packet>, p: Packet)
    requires |SuspiciousSources(history)| <= MAX_ENTRIES
    ensures Expected(history, p) == Drop
            <==> p.Udp? && (Suspicious(p) || SuspiciousCount(history, p.src) >= 5)
  {
    hide LowVariance;
    RoomForAll(history);
  }

  lemma {:induction false} HistoryGrows(history: seq<Packet>, more: seq<Packet>, src: Address)
    ensures SuspiciousCount(history + more, src) >= SuspiciousCount(history, src)
    ensures Tracked(history + more) >= Tracked(history)
  {
    hide Suspicious, SuspiciousCount, Tracked, BlockedCount, PassedCount, Blacklisted, Expected;
    if more == [] {
      assert history + more == history;
    } else {
      var m := |more| - 1;
      HistoryGrows(history, more[..m], src);
      NextPacket(history + more[..m], more[m]);
      assert history + more == history + more[..m] + [more[m]];
    }
  }

  /** Once blacklisted, a source never gets another UDP packet through. */
  lemma {:induction false} BlacklistedForGood(history: seq<Packet>, more: seq<Packet>, p: Packet)
    requires p.Udp? && Blacklisted(history, p.src)
    ensures Expected(history + more, p) == Drop
  {
    HistoryGrows(history, more, p.src);
  }

  // ---------------------------------------------------------------- counting the history

  /** A payload counts as suspicious exactly if its first eight bytes take at most one value. */
  lemma {:induction false} LowVarianceWhen(payload: seq<Byte>)
    ensures LowVariance(payload) <==> |set i | 0 <= i < 8 && i < |payload| :: payload[i]| <= 1
  {
    var values := set i | 0 <= i < 8 && i < |payload| :: payload[i];
    if payload == [] {
      assert values == {};
    } else {
      assert payload[0] in values;
      if LowVariance(payload) {
        assert values == {payload[0]};
      } else {
        var i :| 0 < i < 8 && i < |payload| && payload[i] != payload[0];
        assert payload[i] in values && {payload[0], payload[i]} <= values;
        SubsetSize({payload[0], payload[i]}, values);
      }
    }
  }

  lemma {:induction false} SubsetSize<T>(a: set<T>, b: set<T>)
    requires a <= b
    ensures |a| <= |b|
  {
    if x :| x in a {
      SubsetSize(a - {x}, b - {x});
    }
  }

  /** The places of the suspicious packets of a source. */
  ghost function SuspiciousAt(history: seq<Packet>, src: Address): set<nat> {
    set i: nat | i < |history| && Suspicious(history[i]) && history[i].src == src
  }

  lemma {:induction false} CountIsSize(history: seq<Packet>, src: Address)
    ensures SuspiciousCount(history, src) == |SuspiciousAt(history, src)|
  {
    hide LowVariance;
    if history == [] {
      assert SuspiciousAt(history, src) == {};
    } else {
      var m := |history| - 1;
      var before := SuspiciousAt(history[..m], src);
      CountIsSize(history[..m], src);
      if Suspicious(history[m]) && history[m].src == src {
        assert SuspiciousAt(history, src) == before + {m} && m !in before;
      } else {
        assert SuspiciousAt(history, src) == before;
      }
    }
  }

  /** The map follows the suspicious sources until it holds 100000 of them. */
  lemma {:induction false} MapFillsUp(history: seq<Packet>)
    ensures var sources := SuspiciousSources(history);
            |Tracked(history)| == if |sources| <= 100000 then |sources| else 100000
  {
    hide LowVariance;
    RoomForAll(history);
    if history != [] {
      var front := history[..|history| - 1];
      MapFillsUp(front);
      RoomForAll(front);
      SubsetSize(SuspiciousSources(front), SuspiciousSources(history));
      SubsetSize(Tracked(history), SuspiciousSources(history));
    }
  }

  /** Five suspicious packets of its source came before. */
  ghost predicate OftenSeen(past: seq<Packet>, p: Packet) {
    p.Udp? && SuspiciousCount(past, p.src) >= 5
  }

  ghost predicate LetThrough(past: seq<Packet>, p: Packet) {
    p.Udp? && p.complete && !Suspicious(p) && SuspiciousCount(past, p.src) < 5
  }

  ghost function OftenSeenAt(history: seq<Packet>): set<nat> {
    set i: nat | i < |history| && OftenSeen(history[..i], history[i])
  }

  ghost function LetThroughAt(history: seq<Packet>): set<nat> {
    set i: nat | i < |history| && LetThrough(history[..i], history[i])
  }

  lemma {:induction false} OftenSeenNext(history: seq<Packet>)
    requires history != []
    ensures var m := |history| - 1;
            |OftenSeenAt(history)|
            == |OftenSeenAt(history[..m])| + (if OftenSeen(history[..m], history[m]) then 1 else 0)
  {
    hide OftenSeen;
    var m := |history| - 1;
    var front := history[..m];
    assert forall i :: 0 <= i <= m ==> front[..i] == history[..i];
    assert m !in OftenSeenAt(front);
    assert OftenSeenAt(history) == OftenSeenAt(front) + (if OftenSeen(front, history[m]) then {m} else {});
  }

  lemma {:induction false} LetThroughNext(history: seq<Packet>)
    requires history != []
    ensures var m := |history| - 1;
            |LetThroughAt(history)|
            == |LetThroughAt(history[..m])| + (if LetThrough(history[..m], history[m]) then 1 else 0)
  {
    hide LetThrough;
    var m := |history| - 1;
    var front := history[..m];
    assert forall i :: 0 <= i <= m ==> front[..i] == history[..i];
    assert m !in LetThroughAt(front);
    assert LetThroughAt(history) == LetThroughAt(front) + (if LetThrough(front, history[m]) then {m} else {});
  }

  /** While the map has room: what the two statistics counters count. */
  lemma {:induction false} CountersFromHistory(history: seq<Packet>)
    requires |SuspiciousSources(history)| <= 100000
    ensures BlockedCount(history) == |OftenSeenAt(history)|
    ensures PassedCount(history) == |LetThroughAt(history)|
  {
    hide LowVariance, SuspiciousCount, Tracked, SuspiciousSources, Suspicious, Expected, Blacklisted;
    if history == [] {
      assert OftenSeenAt([]) == {} && LetThroughAt([]) == {};
    } else {
      var m := |history| - 1;
      SourcesGrow(history);
      hide OftenSeenAt, LetThroughAt;
      CountersFromHistory(history[..m]);
      BlacklistedWhen(history[..m], history[m]);
      OftenSeenNext(history);
      LetThroughNext(history);
    }
  }

  lemma {:induction false} SourcesGrow(history: seq<Packet>)
    requires history != []
    ensures |SuspiciousSources(history[..|history| - 1])| <= |SuspiciousSources(history)|
  {
    hide Suspicious;
    SubsetSize(SuspiciousSources(history[..|history| - 1]), SuspiciousSources(history));
  }

  lemma {:induction false} BlacklistedWhen(history: seq<Packet>, p: Packet)
    requires |SuspiciousSources(history)| <= MAX_ENTRIES
    ensures p.Udp? ==> (Blacklisted(history, p.src) <==> SuspiciousCount(history, p.src) >= 5)
    ensures p.Udp? ==> (Expected(history, p) == Pass
                        <==> !Suspicious(p) && SuspiciousCount(history, p.src) < 5)
  {
    hide LowVariance;
    RoomForAll(history);
  }

  // ---------------------------------------------------------------- the filter

  class Filter {
    var blockMap: map<Address, Byte>
    var packetCount: nat
    var blockedCount: nat
    ghost var history: seq<Packet>

    /** The maps say about every source and every packet seen what the history says. */
    ghost predicate Valid()
      reads this
    {
      && blockMap.Keys == Tracked(history)
      && (forall src :: src in blockMap ==> blockMap[src] == CappedCount(history, src))
      && packetCount == PassedCount(history) && blockedCount == BlockedCount(history)
    }

    constructor ()
      ensures Valid() && history == []
    {
      blockMap, packetCount, blockedCount, history := map[], 0, 0, [];
    }

    /** The loop over the payload. */
    method ScanPayload(payload: seq<Byte>) returns (lowVariance: bool)
      ensures lowVariance == LowVariance(payload)
    {
      lowVariance := true;
      var i := 1;
      while i < 8 && i < |payload|
        invariant i >= 1 && lowVariance
        invariant forall j :: 0 < j < i && j < |payload| ==> payload[j] == payload[0]
      {
        if payload[i] != payload[0] {
          lowVariance := false;
          break;
        }
        i := i + 1;
      }
    }

    /** bpf_map_update_elem: a new key is refused once the map is full. */
    method UpdateBlockMap(src: Address, count: Byte)
      modifies this`blockMap
      ensures blockMap == if src in old(blockMap) || |old(blockMap)| < MAX_ENTRIES
                          then old(blockMap)[src := count] else old(blockMap)
    {
      if src in blockMap || |blockMap| < MAX_ENTRIES {
        blockMap := blockMap[src := count];
      }
    }

    method Handle(p: Packet) returns (verdict: Verdict)
      requires Valid()
      modifies this
      ensures Valid() && history == old(history) + [p]
      ensures verdict == Expected(old(history), p)
    {
      hide LowVariance, SuspiciousCount, Tracked, BlockedCount, PassedCount;
      ghost var past := history;
      NextPacket(past, p);
      history := history + [p];
      if p.Other? {
        KeptAfter(past, p);
        return Pass;
      }
      if p.src in blockMap && blockMap[p.src] >= BLOCK_THRESHOLD {
        KeptAfter(past, p);
        blockedCount := blockedCount + 1;
        return Drop;
      }
      if !p.complete {
        KeptAfter(past, p);
        return Pass;
      }
      var lowVariance := ScanPayload(p.payload);
      if lowVariance {
        var newCount := 1;
        if p.src in blockMap {
          newCount := blockMap[p.src] + 1;
        }
        CountedAfter(past, p);
        UpdateBlockMap(p.src, newCount);
        return Drop;
      }
      KeptAfter(past, p);
      packetCount := packetCount + 1;
      return Pass;
    }
  }
}
