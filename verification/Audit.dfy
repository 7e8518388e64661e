/** The hash-chained audit log and the witness kept outside it. */
module Audit {
  import opened Domain

  datatype Hash = GENESIS | Digest(text: Name)

  /** What is hashed: the entry, and the hash of the record before it. */
  datatype Body = Body(ts: int, eventType: Name, payload: Name, prev: Hash)

  datatype Record = Record(body: Body, hash: Hash)

  /** A line of the file: a record, or something that does not parse as one. */
  datatype Line = Readable(record: Record) | Garbage

  type Hasher = Body -> Hash

  ghost predicate CollisionFree(h: Hasher) {
    && (forall a, b :: h(a) == h(b) ==> a == b)
    && (forall a :: h(a) != GENESIS)
  }

  // --- Chains ---

  /** The hash after `p` records. */
  function HashAt(chain: seq<Record>, p: nat): Hash
    requires p <= |chain|
  {
    if p == 0 then GENESIS else chain[p - 1].hash
  }

  function Head(chain: seq<Record>): Hash {
    HashAt(chain, |chain|)
  }

  predicate LinkAt(h: Hasher, chain: seq<Record>, k: nat)
    requires k < |chain|
  {
    chain[k].body.prev == HashAt(chain, k) && chain[k].hash == h(chain[k].body)
  }

  ghost predicate Intact(h: Hasher, chain: seq<Record>) {
    forall k :: 0 <= k < |chain| ==> LinkAt(h, chain, k)
  }

  function Appended(h: Hasher, chain: seq<Record>, ts: int, eventType: Name, payload: Name): seq<Record> {
    var body := Body(ts, eventType, payload, Head(chain));
    chain + [Record(body, h(body))]
  }

  lemma AppendKeepsIntact(h: Hasher, chain: seq<Record>, ts: int, eventType: Name, payload: Name)
    requires Intact(h, chain)
    ensures Intact(h, Appended(h, chain, ts, eventType, payload))
  {
    var longer := Appended(h, chain, ts, eventType, payload);
    forall k | 0 <= k < |longer| ensures LinkAt(h, longer, k) {
      assert k < |chain| ==> LinkAt(h, chain, k);
    }
  }

  lemma PrefixIntact(h: Hasher, chain: seq<Record>, p: nat)
    requires Intact(h, chain) && p <= |chain|
    ensures Intact(h, chain[..p]) && Head(chain[..p]) == HashAt(chain, p)
  {
    forall k | 0 <= k < p ensures LinkAt(h, chain[..p], k) {
      assert LinkAt(h, chain, k);
    }
  }

  /** The head determines the history: two intact logs with the same head are the same, record by record. */
  lemma {:induction false} HeadDeterminesHistory(h: Hasher, a: seq<Record>, b: seq<Record>)
    requires CollisionFree(h) && Intact(h, a) && Intact(h, b) && Head(a) == Head(b)
    ensures a == b
  {
    if a == [] || b == [] {
      assert a != [] ==> LinkAt(h, a, |a| - 1);
      assert b != [] ==> LinkAt(h, b, |b| - 1);
    } else {
      var m, n := |a| - 1, |b| - 1;
      assert LinkAt(h, a, m) && LinkAt(h, b, n);
      PrefixIntact(h, a, m);
      PrefixIntact(h, b, n);
      HeadDeterminesHistory(h, a[..m], b[..n]);
      assert a == a[..m] + [a[m]] && b == b[..n] + [b[n]];
    }
  }

  /** On an intact chain no hash comes twice. */
  lemma HashesAreDistinct(h: Hasher, chain: seq<Record>, p: nat, q: nat)
    requires CollisionFree(h) && Intact(h, chain) && p <= |chain| && q <= |chain|
    requires HashAt(chain, p) == HashAt(chain, q)
    ensures p == q
  {
    PrefixIntact(h, chain, p);
    PrefixIntact(h, chain, q);
    HeadDeterminesHistory(h, chain[..p], chain[..q]);
  }

  // --- Lineage ---

  datatype Relation = Missing | Equal | Ancestor | Descendant | Divergent

  function PrevOf(records: seq<Record>): map<Hash, Hash> {
    if records == [] then map[]
    else
      var last := records[|records| - 1];
      PrevOf(records[..|records| - 1])[last.hash := last.body.prev]
  }

  /** The predecessor recorded for the hash after `k` records is the hash before. */
  lemma {:induction false} PrevAt(h: Hasher, chain: seq<Record>, k: nat)
    requires CollisionFree(h) && Intact(h, chain) && 0 < k <= |chain|
    ensures HashAt(chain, k) != GENESIS
    ensures HashAt(chain, k) in PrevOf(chain) && PrevOf(chain)[HashAt(chain, k)] == HashAt(chain, k - 1)
  {
    var n := |chain| - 1;
    assert LinkAt(h, chain, k - 1);
    if k <= n {
      if HashAt(chain, k) == HashAt(chain, n + 1) {
        HashesAreDistinct(h, chain, k, n + 1);
      }
      PrefixIntact(h, chain, n);
      PrevAt(h, chain[..n], k);
      assert HashAt(chain[..n], k) == HashAt(chain, k) && HashAt(chain[..n], k - 1) == HashAt(chain, k - 1);
    }
  }

  lemma {:induction false} BeginningHasNoPrev(h: Hasher, chain: seq<Record>)
    requires CollisionFree(h) && Intact(h, chain)
    ensures GENESIS !in PrevOf(chain)
  {
    if chain != [] {
      var n := |chain| - 1;
      assert LinkAt(h, chain, n);
      PrefixIntact(h, chain, n);
      BeginningHasNoPrev(h, chain[..n]);
    }
  }

  /** `target` is met when walking back from position `p`; the very beginning may or may not count. */
  ghost predicate MetGoingBack(chain: seq<Record>, p: nat, target: Hash, genesisCounts: bool)
    requires p <= |chain|
  {
    exists q: nat :: q <= p && HashAt(chain, q) == target && (q == p || q > 0 || genesisCounts)
  }

  /** The walk of the lineage check: from one hash back along the recorded predecessors, whatever was
      recorded, until it meets its target, the beginning, a gap or its own track. */
  method WalkBack(prev: map<Hash, Hash>, from: Hash, target: Hash, genesisCounts: bool,
                  ghost h: Hasher, ghost chain: seq<Record>, ghost p: nat) returns (found: bool)
    requires p <= |chain|
    ensures CollisionFree(h) && Intact(h, chain) && prev == PrevOf(chain) && from == HashAt(chain, p) ==>
              (found <==> MetGoingBack(chain, p, target, genesisCounts))
    ensures from !in prev ==> (found <==> from == target)
  {
    ghost var known := CollisionFree(h) && Intact(h, chain) && prev == PrevOf(chain) && from == HashAt(chain, p);
    ghost var c: nat := p;
    if known {
      BeginningHasNoPrev(h, chain);
      forall k: nat | 0 < k <= |chain|
        ensures HashAt(chain, k) != GENESIS && HashAt(chain, k) in prev
        ensures prev[HashAt(chain, k)] == HashAt(chain, k - 1)
      {
        PrevAt(h, chain, k);
      }
    }
    var cur, seen: set<Hash> := Some(from), {};
    while cur.Some? && cur.value !in seen
      invariant c <= p
      invariant known && cur.Some? ==> cur.value == HashAt(chain, c) && (c == p || c > 0)
      invariant known && cur.None? ==> p == 0 && target != GENESIS
      invariant known ==> forall q: nat :: c < q <= p ==> HashAt(chain, q) != target
      invariant known && cur.Some? ==> forall x :: x in seen ==> exists q: nat :: c < q <= p && HashAt(chain, q) == x
      invariant if seen == {} then cur == Some(from) else from in seen && from != target
      invariant from !in prev && seen != {} ==> cur.None?
      decreases prev.Keys - seen, if cur.Some? then 1 else 0
    {
      if cur.value == target {
        return true;
      }
      assert known && c > 0 ==> HashAt(chain, c) in prev && prev[HashAt(chain, c)] == HashAt(chain, c - 1);
      seen := seen + {cur.value};
      cur := if cur.value in prev then Some(prev[cur.value]) else None;
      if c > 0 {
        c := c - 1;
      }
      if cur == Some(GENESIS) {
        found := genesisCounts && target == GENESIS;
        return;
      }
    }
    if known && cur.Some? {
      var q: nat :| c < q <= p && HashAt(chain, q) == cur.value;
      HashesAreDistinct(h, chain, c, q);
    }
    found := false;
  }

  lemma {:induction false} OnChain(chain: seq<Record>, x: Hash)
    requires x in PrevOf(chain)
    ensures exists q: nat :: q <= |chain| && HashAt(chain, q) == x
  {
    var n := |chain| - 1;
    if x == chain[n].hash {
      assert HashAt(chain, n + 1) == x;
    } else {
      OnChain(chain[..n], x);
      var q: nat :| q <= n && HashAt(chain[..n], q) == x;
      assert HashAt(chain, q) == x;
    }
  }

  /** Where a witness at position `q` stands to a candidate at position `p`.  From the very beginning a
      later witness cannot be told from a foreign one. */
  function RelationOf(p: nat, q: nat): Relation {
    if q == p then Equal else if q < p then Ancestor else if p > 0 then Descendant else Divergent
  }

  /** Not a hash this chain ever had at its head. */
  ghost predicate Foreign(chain: seq<Record>, x: Hash) {
    forall q: nat :: q <= |chain| ==> HashAt(chain, q) != x
  }

  /** On an intact chain the relation is decided by the positions, and anything not on it is divergent. */
  method LineageRelation(records: seq<Record>, external: Option<Hash>, candidate: Hash, ghost h: Hasher, ghost p: nat)
    returns (r: Relation)
    requires p <= |records|
    ensures r == Missing <==> external.None?
    ensures r == Equal <==> external == Some(candidate)
    ensures CollisionFree(h) && Intact(h, records) && candidate == HashAt(records, p) ==>
              forall q: nat :: q <= |records| && external == Some(HashAt(records, q)) ==> r == RelationOf(p, q)
    ensures CollisionFree(h) && Intact(h, records) && candidate == HashAt(records, p) ==>
              (external.Some? && Foreign(records, external.value) ==> r == Divergent)
  {
    if external.None? {
      return Missing;
    }
    if external.value == candidate {
      r := Equal;
      forall q: nat | CollisionFree(h) && Intact(h, records) && candidate == HashAt(records, p)
                      && q <= |records| && external == Some(HashAt(records, q))
        ensures q == p
      {
        HashesAreDistinct(h, records, p, q);
      }
      return;
    }
    ghost var known := CollisionFree(h) && Intact(h, records) && candidate == HashAt(records, p);
    ghost var at: nat :|
      && at <= |records|
      && ((exists q: nat :: q <= |records| && HashAt(records, q) == external.value) ==>
            HashAt(records, at) == external.value);
    ghost var on := HashAt(records, at) == external.value;
    if external.value in PrevOf(records) {
      OnChain(records, external.value);
    }
    if known && on {
      PositionsDecide(h, records, p, at);
    }
    var prev := PrevOf(records);
    var back := WalkBack(prev, candidate, external.value, true, h, records, p);
    if back {
      return Ancestor;
    }
    back := WalkBack(prev, external.value, candidate, false, h, records, at);
    r := if back then Descendant else Divergent;
  }

  lemma PositionsDecide(h: Hasher, chain: seq<Record>, p: nat, q: nat)
    requires CollisionFree(h) && Intact(h, chain) && p <= |chain| && q <= |chain| && p != q
    ensures MetGoingBack(chain, p, HashAt(chain, q), true) <==> q < p
    ensures MetGoingBack(chain, q, HashAt(chain, p), false) <==> 0 < p < q
    ensures forall k: nat :: k <= |chain| && HashAt(chain, k) == HashAt(chain, q) ==> k == q
  {
    forall j: nat, k: nat | j <= |chain| && k <= |chain| && HashAt(chain, j) == HashAt(chain, k) ensures j == k {
      HashesAreDistinct(h, chain, j, k);
    }
  }

  // --- The log and its witness ---

  /** What the witness holds: a head, and the number of records behind it (older ones may lack that). */
  datatype Witness = Witness(head: Hash, height: Option<int>)

  datatype HeightRelation = HeightUnknown | HeightOk | Shrunk

  function HeightOf(external: Option<Witness>, localHeight: int): HeightRelation {
    if external.None? || localHeight < 0 then HeightUnknown
    else if external.value.height.None? then (if localHeight == 0 then HeightOk else Shrunk)
    else if external.value.height.value > localHeight then Shrunk
    else HeightOk
  }

  /** What a publisher makes of the witness it reads: to be brought up, left alone, or not believed. */
  datatype Verdict = Advance | Keep | Distrust

  /** A witness says how many records it was given; one that does not is believed over an empty log only. */
  predicate NoHigherThan(w: Witness, n: nat) {
    if w.height.Some? then w.height.value <= n else n == 0
  }

  /** The records of a file, if every line is one. */
  function Records(lines: seq<Line>): Option<seq<Record>> {
    if lines == [] then Some([])
    else
      var init, last := Records(lines[..|lines| - 1]), lines[|lines| - 1];
      if init.Some? && last.Readable? then Some(init.value + [last.record]) else None
  }

  lemma {:induction false} RecordsAre(lines: seq<Line>)
    ensures Records(lines).Some? <==> forall k :: 0 <= k < |lines| ==> lines[k].Readable?
    ensures Records(lines).Some? ==> var rs := Records(lines).value;
              |rs| == |lines| && forall k :: 0 <= k < |lines| ==> rs[k] == lines[k].record
  {
    if lines != [] {
      RecordsAre(lines[..|lines| - 1]);
    }
  }

  /** The witness stands on the chain, no higher than the chain is long. */
  ghost predicate WitnessOn(chain: seq<Record>, w: Option<Witness>, at: nat) {
    w.Some? ==>
      && at <= |chain| && w.value.head == HashAt(chain, at)
      && w.value.height.Some? && at <= w.value.height.value <= |chain|
  }

  class HashChainedAuditLog {
    const hasher: Hasher
    const anchored: bool

    /** The file, or None when there is none yet. */
    var lines: Option<seq<Line>>
    var anchor: Option<Witness>
    var degraded: bool

    constructor (hasher: Hasher, anchored: bool)
      ensures this.hasher == hasher && this.anchored == anchored && lines == None && anchor == None && !degraded
    {
      this.hasher, this.anchored, lines, anchor, degraded := hasher, anchored, None, None, false;
    }

    function Lines(): seq<Line>
      reads this`lines
    {
      if lines.Some? then lines.value else []
    }

    ghost predicate IntactWith(chain: seq<Record>)
      reads this`lines
    {
      Records(Lines()) == Some(chain) && Intact(hasher, chain)
    }

    /** The digest is the one after `p` records of an intact file. */
    ghost predicate Names(chain: seq<Record>, digest: Hash, p: nat)
      reads this`lines
    {
      CollisionFree(hasher) && IntactWith(chain) && p <= |chain| && digest == HashAt(chain, p)
    }

    /** Adds one record behind the last; a corrupt tail is refused. */
    method Append(ts: int, eventType: Name, payload: Name) returns (digest: Option<Hash>)
      modifies this`lines
      ensures digest.None? <==> old(Lines() != [] && Lines()[|Lines()| - 1].Garbage?)
      ensures digest.None? ==> lines == old(lines)
      ensures digest.Some? ==>
                exists record :: Lines() == old(Lines()) + [Readable(record)] && record.hash == digest.value
                                 && record.body.ts == ts && record.body.eventType == eventType
                                 && record.body.payload == payload && record.hash == hasher(record.body)
      ensures forall chain :: old(IntactWith(chain)) ==>
                var longer := Appended(hasher, chain, ts, eventType, payload);
                digest.Some? && IntactWith(longer) && digest.value == Head(longer)
    {
      var ls := Lines();
      RecordsAre(ls);
      var prev := GENESIS;
      if ls != [] {
        if ls[|ls| - 1].Garbage? {
          return None;
        }
        prev := ls[|ls| - 1].record.hash;
      }
      var body := Body(ts, eventType, payload, prev);
      var record := Record(body, hasher(body));
      lines := Some(ls + [Readable(record)]);
      digest := Some(record.hash);
      assert lines.value[..|ls|] == ls;
      forall chain | old(IntactWith(chain)) ensures IntactWith(Appended(hasher, chain, ts, eventType, payload)) {
        AppendKeepsIntact(hasher, chain, ts, eventType, payload);
      }
    }

    /** Reads the file line by line; with the anchor, when asked.  No file passes without a look. */
    method Verify(verifyAnchor: bool, anchorReads: bool) returns (ok: bool)
      modifies this`degraded
      ensures lines.None? ==> ok
      ensures lines.Some? ==>
                (ok <==> && (exists chain :: IntactWith(chain))
                         && (verifyAnchor && anchored ==>
                               && anchorReads && anchor.Some? && NoHigherThan(anchor.value, |Lines()|)
                               && forall chain :: IntactWith(chain) ==> anchor.value.head == Head(chain)))
      ensures ok ==> degraded == old(degraded)
    {
      if lines.None? {
        return true;
      }
      var ls := lines.value;
      RecordsAre(ls);
      var prev := GENESIS;
      ghost var chain: seq<Record> := [];
      for k := 0 to |ls|
        invariant |chain| == k && prev == Head(chain) && Intact(hasher, chain) && degraded == old(degraded)
        invariant forall j :: 0 <= j < k ==> ls[j] == Readable(chain[j])
      {
        if ls[k].Garbage? {
          return false;
        }
        var record := ls[k].record;
        forall c | IntactWith(c) ensures record.body.prev == prev && hasher(record.body) == record.hash {
          assert LinkAt(hasher, c, k);
        }
        if record.body.prev != prev || hasher(record.body) != record.hash {
          return false;
        }
        AppendKeepsIntact(hasher, chain, record.body.ts, record.body.eventType, record.body.payload);
        prev := record.hash;
        chain := chain + [record];
      }
      assert Records(ls).value == chain;
      assert IntactWith(chain);
      if verifyAnchor && anchored {
        if !anchorReads || anchor.None? || anchor.value.head != prev {
          return false;
        }
        if HeightOf(anchor, |ls|) == Shrunk {
          degraded := true;
          return false;
        }
      }
      ok := true;
    }

    /** Tells the witness of a head, unless that would roll it back, or it does not know this chain.  Reading and
        writing it may fail, and then nothing changes.  A witness behind the head is brought up to it whenever it
        can be read and written; degraded says that it could not, or should have been and was not known. */
    method PublishBestEffort(digest: Hash, canRead: bool, canWrite: bool, ghost p: nat)
      requires p <= |Lines()|
      modifies this`anchor, this`degraded
      ensures !anchored ==> anchor == old(anchor) && degraded == old(degraded)
      ensures anchor == old(anchor) || (canRead && canWrite && anchor == Some(Witness(digest, Some(|Lines()|))))
      ensures old(anchor).Some? && !NoHigherThan(old(anchor).value, |Lines()|) && Records(Lines()).Some? ==>
                anchor == old(anchor) && (anchored ==> degraded)
      ensures old(anchor).None? && |Lines()| > 1 ==> anchor.None?
      ensures forall chain :: Names(chain, digest, p) && anchored && old(anchor).None? ==>
                && (anchor.Some? <==> canRead && canWrite && |Lines()| <= 1) && (degraded <==> anchor.None?)
      ensures forall chain, q: nat ::
                Names(chain, digest, p) && anchored && old(WitnessOn(chain, anchor, q)) && old(anchor).Some? ==>
                  && anchor == (if canRead && canWrite && q < p then Some(Witness(digest, Some(|Lines()|)))
                                else old(anchor))
                  && (degraded <==> !canRead || (q < p && !canWrite) || p == 0 < q)
      ensures forall chain, q: nat :: Names(chain, digest, p) && old(WitnessOn(chain, anchor, q)) ==>
                && WitnessOn(chain, anchor, if anchor == old(anchor) then q else p)
                && (anchor != old(anchor) && old(anchor).Some? ==> q < p)
      ensures forall chain :: Names(chain, digest, p) && old(anchor).Some? ==>
                (Foreign(chain, old(anchor).value.head) ==> anchor == old(anchor) && (anchored ==> degraded))
    {
      if !anchored {
        return;
      }
      if !canRead {
        degraded := true;
        return;
      }
      RecordsAre(Lines());
      var verdict := Judge(digest, p);
      match verdict {
        case Distrust => degraded := true;
        case Keep => degraded := false;
        case Advance =>
          if canWrite {
            anchor := Some(Witness(digest, Some(|Lines()|)));
          }
          degraded := !canWrite;
      }
    }

    /** Where the witness stands to a head. */
    method Judge(digest: Hash, ghost p: nat) returns (v: Verdict)
      requires p <= |Lines()|
      ensures anchor.Some? && !NoHigherThan(anchor.value, |Lines()|) && Records(Lines()).Some? ==> v == Distrust
      ensures anchor.None? && |Lines()| > 1 ==> v == Distrust
      ensures forall chain :: Names(chain, digest, p) && anchor.None? ==>
                v == if |Lines()| <= 1 then Advance else Distrust
      ensures forall chain, q: nat :: Names(chain, digest, p) && WitnessOn(chain, anchor, q) && anchor.Some? ==>
                v == if q < p then Advance else if p == 0 < q then Distrust else Keep
      ensures forall chain :: Names(chain, digest, p) && anchor.Some? && Foreign(chain, anchor.value.head) ==>
                v == Distrust
    {
      var records := Records(Lines());
      RecordsAre(Lines());
      var external := if anchor.Some? then Some(anchor.value.head) else None;
      var localHeight := if records.Some? then |Lines()| else -1;
      if HeightOf(anchor, localHeight) == Shrunk {
        return Distrust;
      }
      var relation := Divergent;
      if records.Some? {
        relation := LineageRelation(records.value, external, digest, hasher, p);
      } else if external.None? {
        relation := Missing;
      } else if external.value == digest {
        relation := Equal;
      }
      match relation {
        case Missing => v := if records.None? || |records.value| > 1 then Distrust else Advance;
        case Divergent => v := Distrust;
        case Equal | Descendant => v := Keep;
        case Ancestor => v := Advance;
      }
    }

    /** Brings the witness up to the head, from its lineage only, whenever it can be read and written. */
    method SyncAnchor(canRead: bool, canWrite: bool) returns (ok: bool)
      modifies this`anchor, this`degraded
      ensures !anchored ==> anchor == old(anchor) && ok
      ensures anchor == old(anchor) || (anchor.Some? && anchor.value.height == Some(|Lines()|))
      ensures old(anchor).Some? && !NoHigherThan(old(anchor).value, |Lines()|) ==>
                anchor == old(anchor) && (anchored ==> !ok)
      ensures ok && anchored ==> !degraded
      ensures forall chain :: CollisionFree(hasher) && IntactWith(chain) && anchored && old(anchor).None? ==>
                && (ok <==> canRead && canWrite && chain == [])
                && anchor == if ok then Some(Witness(GENESIS, Some(0))) else None
      ensures forall chain, q: nat ::
                CollisionFree(hasher) && IntactWith(chain) && anchored && old(WitnessOn(chain, anchor, q))
                && old(anchor).Some? ==>
                  && (ok <==> canRead && (q < |chain| ==> canWrite))
                  && anchor == if ok && q < |chain| then Some(Witness(Head(chain), Some(|chain|))) else old(anchor)
      ensures forall chain, q: nat :: CollisionFree(hasher) && IntactWith(chain) && old(WitnessOn(chain, anchor, q)) ==>
                && WitnessOn(chain, anchor, if anchor == old(anchor) then q else |chain|)
                && (anchor != old(anchor) && old(anchor).Some? ==> q < |chain|)
                && (anchored && ok ==> WitnessOn(chain, anchor, |chain|) && anchor.Some?)
      ensures forall chain :: CollisionFree(hasher) && IntactWith(chain) && old(anchor).Some? ==>
                (Foreign(chain, old(anchor).value.head) ==> anchor == old(anchor) && (anchored ==> !ok))
    {
      if !anchored {
        return true;
      }
      var records := Records(Lines());
      RecordsAre(Lines());
      if !canRead || records.None? {
        degraded := true;
        return false;
      }
      var digest := Head(records.value);
      var localHeight := |Lines()|;
      if HeightOf(anchor, localHeight) == Shrunk {
        degraded := true;
        return false;
      }
      var publish := true;
      assert CollisionFree(hasher) && Intact(hasher, records.value) && records.value != [] ==>
               LinkAt(hasher, records.value, |records.value| - 1) && digest != GENESIS;
      if anchor.None? {
        if digest != GENESIS {
          degraded := true;
          return false;
        }
      } else {
        var relation := LineageRelation(records.value, Some(anchor.value.head), digest, hasher, |records.value|);
        if relation == Divergent {
          degraded := true;
          return false;
        }
        publish := relation == Ancestor;
      }
      if publish {
        if !canWrite {
          degraded := true;
          return false;
        }
        anchor := Some(Witness(digest, Some(localHeight)));
      }
      degraded := false;
      ok := true;
    }

    /** An intact log that ends in the hash the witness holds. */
    ghost predicate IsWitnessed(witnessed: seq<Record>, w: Option<Witness>) {
      CollisionFree(hasher) && Intact(hasher, witnessed) && w.Some? && w.value.head == Head(witnessed)
    }

    /** The check before a boot.  A file that is there passes with its witness exactly when it is, record by
        record, the log that was witnessed, and no shorter than the witness says; without a witness only an
        empty log passes, and gets one.  A corrupt tail raises. */
    method VerifyBeforeBoot(readable: bool, canSync: bool, stillReadable: bool) returns (r: Result<bool>)
      modifies this`anchor, this`degraded
      ensures !anchored ==> r == Ok(true)
      ensures old(anchor).Some? ==> anchor == old(anchor) && r.Ok?
      ensures anchored && lines.Some? && old(anchor).Some? ==>
                forall witnessed: seq<Record> :: IsWitnessed(witnessed, old(anchor)) ==>
                  (r == Ok(true) <==>
                     && readable && stillReadable
                     && Records(Lines()) == Some(witnessed) && NoHigherThan(old(anchor).value, |witnessed|))
      ensures anchored && old(anchor).None? && CollisionFree(hasher) && Lines() == [] ==>
                && (r == Ok(true) <==> readable && canSync && (lines.None? || stillReadable))
                && (r == Ok(true) ==> anchor == Some(Witness(GENESIS, Some(0))))
      ensures anchored && old(anchor).None? && CollisionFree(hasher) && Lines() != [] ==> r != Ok(true)
      ensures r.Err? ==> r.exn == Faulted && Lines() != [] && Lines()[|Lines()| - 1].Garbage?
    {
      if !anchored {
        return Ok(true);
      }
      if !readable {
        degraded := true;
        return Ok(false);
      }
      if anchor.None? {
        var ls := Lines();
        if ls != [] && ls[|ls| - 1].Garbage? {
          return Err(Faulted);
        }
        if ls != [] && ls[|ls| - 1].record.hash != GENESIS {
          return Ok(false);
        }
        var synced := SyncAnchor(canSync, canSync);
        assert ls == [] ==> IntactWith([]);
        if !synced {
          return Ok(false);
        }
      }
      var ok := Verify(true, stillReadable);
      assert Lines() == [] ==> IntactWith([]);
      forall witnessed: seq<Record> | lines.Some? && IsWitnessed(witnessed, old(anchor))
        ensures old(anchor).Some? ==>
                  (ok <==>
                     && stillReadable && Records(Lines()) == Some(witnessed)
                     && NoHigherThan(old(anchor).value, |witnessed|))
      {
        if anchor.Some? && old(anchor).Some? {
          WitnessedIff(witnessed);
        }
      }
      if ok && lines.Some? && old(anchor).None? && CollisionFree(hasher) {
        ghost var chain :| IntactWith(chain);
        RecordsAre(lines.value);
        assert old(WitnessOn(chain, anchor, 0)) && old(IntactWith(chain));
      }
      r := Ok(ok);
    }

    /** Of intact logs only the witnessed one ends in the witnessed head. */
    lemma WitnessedIff(witnessed: seq<Record>)
      requires anchor.Some? && IsWitnessed(witnessed, anchor)
      ensures (exists chain :: IntactWith(chain) && Head(chain) == anchor.value.head) <==>
                Records(Lines()) == Some(witnessed)
      ensures Records(Lines()) == Some(witnessed) ==> |Lines()| == |witnessed|
    {
      RecordsAre(Lines());
      if Records(Lines()) == Some(witnessed) {
        assert IntactWith(witnessed);
      }
      forall chain | IntactWith(chain) && Head(chain) == anchor.value.head ensures chain == witnessed {
        HeadDeterminesHistory(hasher, chain, witnessed);
      }
    }
  }

  /** One append, one publish of a head already written, or one sync. */
  method HistoryStep(log: HashChainedAuditLog, ghost chain: seq<Record>, ghost at: nat)
    returns (ghost chain': seq<Record>, ghost at': nat)
    requires CollisionFree(log.hasher) && log.IntactWith(chain) && WitnessOn(chain, log.anchor, at)
    requires log.anchor.None? ==> at == 0
    modifies log
    ensures log.IntactWith(chain') && |chain| <= |chain'| && WitnessOn(chain', log.anchor, at') && at <= at'
    ensures log.anchor.None? ==> at' == 0
    ensures old(log.anchor).None? && |chain| > 1 ==> log.anchor.None?
  {
    var what: int, p: int, ts: int, kind: Name, payload: Name := *, *, *, *, *;
    var canRead: bool, canWrite: bool := *, *;
    ghost var before := log.anchor;
    chain', at' := chain, at;
    if what == 0 {
      var _ := log.Append(ts, kind, payload);
      chain' := Appended(log.hasher, chain, ts, kind, payload);
    } else if what == 1 {
      var ls := log.Lines();
      RecordsAre(ls);
      if 0 < p <= |ls| {
        log.PublishBestEffort(ls[p - 1].record.hash, canRead, canWrite, p);
        assert log.Names(chain, ls[p - 1].record.hash, p);
        at' := if log.anchor == before then at else p;
      }
    } else {
      var _ := log.SyncAnchor(canRead, canWrite);
      assert log.IntactWith(chain);
      at' := if log.anchor == before then at else |chain|;
    }
  }

  /** Appends by any number of writers, with publishes that come late, in any order, or not at all: the
      witness stays on the chain, and only ever moves forward along it.  A witness that has missed the
      first record is never started at all. */
  method AnyHistory(h: Hasher, steps: nat)
    returns (log: HashChainedAuditLog, ghost chain: seq<Record>, ghost positions: seq<nat>, ghost missed: bool)
    requires CollisionFree(h)
    ensures missed ==> log.anchor.None?
    ensures fresh(log) && log.hasher == h && log.IntactWith(chain)
    ensures |positions| == steps + 1 && WitnessOn(chain, log.anchor, positions[steps])
    ensures forall j, k :: 0 <= j <= k <= steps ==> positions[j] <= positions[k]
  {
    log := new HashChainedAuditLog(h, true);
    chain, positions, missed := [], [0], false;
    for k := 0 to steps
      invariant fresh(log) && log.hasher == h && log.IntactWith(chain)
      invariant missed ==> |chain| > 1 && log.anchor.None?
      invariant |positions| == k + 1 && WitnessOn(chain, log.anchor, positions[k])
      invariant (log.anchor.None? ==> positions[k] == 0)
      invariant forall i, j :: 0 <= i <= j <= k ==> positions[i] <= positions[j]
    {
      ghost var at: nat;
      chain, at := HistoryStep(log, chain, positions[k]);
      positions := positions + [at];
      missed := missed || (|chain| > 1 && log.anchor.None?);
    }
  }
}
