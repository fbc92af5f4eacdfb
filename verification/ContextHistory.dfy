/** Reading a chain of records back: the recursive history query finds exactly the records that are no longer current. */
module ContextHistory {
  import opened Prelude
  import opened ContextRecords
  import opened ContextRuns

  /** The records that `r` supersedes, directly or not, newest first. */
  function Older(p: Project, r: Id): (older: seq<Id>)
    requires ChainInv(p) && r < |p.origins|
    decreases r
  {
    assert LinkInv(p, r);
    match p.origins[r].supersedes
    case None => []
    case Some(q) => [q] + Older(p, q)
  }

  /** Going back `k + 1` links reaches the record `k + 1` versions older, so the chain has no branch, gap or cycle. */
  lemma {:induction false} OlderCountsDown(p: Project, r: Id)
    requires ChainInv(p) && r < |p.origins|
    ensures |Older(p, r)| == p.origins[r].recordVersion - 1
    ensures forall k :: 0 <= k < |Older(p, r)| ==>
      && Older(p, r)[k] < |p.origins|
      && p.origins[Older(p, r)[k]].identity == p.origins[r].identity
      && p.origins[Older(p, r)[k]].recordVersion == p.origins[r].recordVersion - 1 - k
    decreases r
  {
    assert LinkInv(p, r);
    if p.origins[r].supersedes.Some? {
      OlderCountsDown(p, p.origins[r].supersedes.value);
    }
  }

  /** The record of an identity at a version is unique. */
  lemma SameVersionSameRecord(p: Project, r: Id, s: Id)
    requires ChainInv(p) && r < |p.origins| && s < |p.origins|
    requires p.origins[r].identity == p.origins[s].identity && p.origins[r].recordVersion == p.origins[s].recordVersion
    ensures r == s
  {
  }

  /** `s` is a record of identity `i` that is not its current one. */
  predicate IsPredecessor(p: Project, i: Id, s: Id) {
    s < |p.origins| && p.origins[s].identity == i && i in p.current && s != p.current[i]
  }

  /** The history of the current record is every other record of the identity, each once. */
  lemma HistoryIsEverythingElse(p: Project, i: Id)
    requires Inv(p) && i < |p.identities|
    ensures i in p.current && p.current[i] < |p.origins|
    ensures forall s :: s in Older(p, p.current[i]) <==> IsPredecessor(p, i, s)
    ensures forall j, k :: 0 <= j < k < |Older(p, p.current[i])| ==> Older(p, p.current[i])[j] != Older(p, p.current[i])[k]
  {
    assert IdentityInv(p, i);
    var c := p.current[i];
    var older := Older(p, c);
    OlderCountsDown(p, c);
    forall s | 0 <= s < |p.origins| && p.origins[s].identity == i && s != c ensures s in older {
      assert LinkInv(p, s);
      assert p.origins[s].recordVersion != Tip(p, i);
      var k := Tip(p, i) - 1 - p.origins[s].recordVersion;
      SameVersionSameRecord(p, s, older[k]);
    }
  }

  /** Versions are exactly one to the tip: each has a record, and only one. */
  lemma VersionsAreConsecutive(p: Project, i: Id, version: nat)
    requires Inv(p) && i < |p.identities|
    ensures (exists r :: 0 <= r < |p.origins| && p.origins[r].identity == i && p.origins[r].recordVersion == version)
      <==> 1 <= version <= Tip(p, i)
  {
    assert IdentityInv(p, i);
    var c := p.current[i];
    OlderCountsDown(p, c);
    if 1 <= version <= Tip(p, i) {
      var r := if version == Tip(p, i) then c else Older(p, c)[Tip(p, i) - 1 - version];
      assert p.origins[r].identity == i && p.origins[r].recordVersion == version;
    }
    forall r | 0 <= r < |p.origins| && p.origins[r].identity == i ensures 1 <= p.origins[r].recordVersion <= Tip(p, i) {
      assert LinkInv(p, r);
    }
  }

  /**
   * Whether the hash of a candidate is that of a record the identity used to have. The working table of the recursive
   * query holds one link at a time; a null link ends it and joins with nothing.
   */
  method KnownHistorical(p: Project, identity: Id, hashes: seq<nat>, hash: nat) returns (known: bool)
    requires Inv(p) && |hashes| == |p.origins|
    ensures known <==>
      identity < |p.identities| && exists s :: 0 <= s < |p.origins| && IsPredecessor(p, identity, s) && hashes[s] == hash
  {
    if identity >= |p.identities| { return false; }
    assert IdentityInv(p, identity);
    HistoryIsEverythingElse(p, identity);
    ghost var history := Older(p, p.current[identity]);
    ghost var at: Id := p.current[identity];
    ghost var seen: nat := 0;
    known := false;
    var link := p.origins[p.current[identity]].supersedes;
    while link.Some?
      invariant 0 <= at < |p.origins| && link == p.origins[at].supersedes
      invariant seen <= |history| && history[seen..] == Older(p, at)
      invariant known <==> exists k :: 0 <= k < seen && history[k] < |hashes| && hashes[history[k]] == hash
      decreases |history| - seen
    {
      assert LinkInv(p, at);
      assert history[seen] == history[seen..][0] == link.value;
      if hashes[link.value] == hash { known := true; }
      at, seen := link.value, seen + 1;
      link := p.origins[link.value].supersedes;
    }
    assert seen == |history|;
  }
}
