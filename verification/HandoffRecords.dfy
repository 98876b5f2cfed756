/**
 Handoff records and their revisions. A content hash is injective, so the hash of a revision is
 modelled as the constructor around its content; a revision thus carries its whole history.
 */
module HandoffRecords {
  import opened Wrappers

  datatype Owner = Parent | Worker

  datatype State = Launching | WorkerOwned | Terminal | ReconciliationRequired

  /** The fields that no transition may change. */
  datatype Identity = Identity(operationId: string, workerId: string, workerNonce: string, graph: string,
                               parentNonce: string)

  datatype Handoff = Handoff(
    identity: Identity,
    owner: Owner,
    ownerPid: nat,
    ownerStart: string,
    state: State,
    updatedAt: string)

  /** A launch record; `rest` stands for its other fields. */
  datatype Launch = Launch(operationId: string, workerId: string, workerNonce: string, graph: string, rest: string)

  datatype Transition = Genesis | LaunchFailed | TakeoverTerminal | WorkerClaim | WorkerFailed | WorkerTerminal

  /** The hash of an operation, a transition and a worker, or any other hash. */
  datatype TransitionId = TransitionId(operationId: string, transition: Transition, workerId: string)
    | OtherId(text: string)

  /** The hash of a launch record is injective too, so it is the record. */
  datatype Revision = Hashed(
    handoff: Handoff,
    launch: Option<Launch>,
    launchHash: Launch,
    previous: Option<Revision>,
    number: nat,
    transitionId: TransitionId)

  predicate LaunchBinds(launch: Launch, handoff: Handoff) {
    && launch.operationId == handoff.identity.operationId && launch.workerId == handoff.identity.workerId
    && launch.workerNonce == handoff.identity.workerNonce && launch.graph == handoff.identity.graph
  }

  /** What the schema of a revision demands. */
  predicate WellFormedRevision(r: Revision) {
    && (r.number == 0 ==> r.previous == None && r.launch.Some?)
    && (r.number > 0 ==> r.previous.Some? && r.launch == None)
    && (r.launch.Some? ==> r.launch.value == r.launchHash && LaunchBinds(r.launch.value, r.handoff))
  }

  /** The launch record of an operation, whatever else it says. */
  function LaunchFor(identity: Identity, rest: string): Launch {
    Launch(identity.operationId, identity.workerId, identity.workerNonce, identity.graph, rest)
  }

  /** Creates a revision, or nothing when the schema rejects it. */
  function CreateRevision(handoff: Handoff, launch: Option<Launch>, launchHash: Launch,
                          previous: Option<Revision>, number: nat, id: TransitionId): (r: Option<Revision>)
    // The schema demands that exactly the first revision carries the launch record, which is the one that is
    // hashed and binds the handoff, and that exactly the others carry the hash of their predecessor.
    ensures r.Some? <==>
      && (launch.Some? <==> number == 0) && (previous.Some? <==> number > 0)
      && (number == 0 ==> launch.value == launchHash && launch.value == LaunchFor(handoff.identity, launch.value.rest))
    ensures r.Some? ==>
      && WellFormedRevision(r.value) && r.value.handoff == handoff && r.value.number == number
      && r.value.transitionId == id
      && r.value.previous == previous && r.value.launch == launch && r.value.launchHash == launchHash
  {
    var r := Hashed(handoff, launch, launchHash, previous, number, id);
    if WellFormedRevision(r) then Some(r) else None
  }

  // ---------- chains of published revisions ----------

  /** What the reader demands of a revision after another one. */
  predicate Follows(prev: Revision, next: Revision) {
    && next.number == prev.number + 1 && next.previous == Some(prev)
    && next.launchHash == prev.launchHash && next.handoff.identity == prev.handoff.identity
  }

  /** The revisions are numbered without a gap, hash-linked, and agree on launch and identity. */
  predicate IsChain(published: map<nat, Revision>) {
    forall k :: k in published ==>
      && published[k].number == k && WellFormedRevision(published[k])
      && (k > 0 ==> k - 1 in published && Follows(published[k - 1], published[k]))
  }

  predicate DistinctIds(published: map<nat, Revision>) {
    forall j, k :: j in published && k in published && j != k ==> published[j].transitionId != published[k].transitionId
  }

  /** A chain has exactly the numbers below its length. */
  lemma {:induction false} ChainBelow(published: map<nat, Revision>, k: nat)
    requires IsChain(published) && k in published
    ensures forall j: nat :: j <= k ==> j in published
  {
    if k > 0 { ChainBelow(published, k - 1); }
  }

  lemma {:induction false} KeysBelow(published: map<nat, Revision>, n: nat)
    requires forall k: nat :: k in published <==> k < n
    ensures |published| == n
  {
    if n > 0 {
      KeysBelow(published - {n - 1}, n - 1);
      assert published == (published - {n - 1})[n - 1 := published[n - 1]];
    } else {
      assert published == map[];
    }
  }

  lemma ChainLength(published: map<nat, Revision>)
    requires IsChain(published)
    ensures forall k: nat :: k in published <==> k < |published|
  {
    var n := FirstMissing(published, 0);
    forall k: nat ensures k in published <==> k < n {
      if k in published && k >= n { ChainBelow(published, k); }
    }
    KeysBelow(published, n);
  }

  function Below(n: nat): set<nat> {
    if n == 0 then {} else Below(n - 1) + {n - 1}
  }

  lemma {:induction false} BelowIs(n: nat)
    ensures |Below(n)| == n && forall k: nat :: k in Below(n) <==> k < n
  {
    if n > 0 { BelowIs(n - 1); }
  }

  lemma {:induction false} FirstMissing(published: map<nat, Revision>, i: nat) returns (n: nat)
    requires forall j: nat :: j < i ==> j in published
    ensures n !in published && forall j: nat :: j < n ==> j in published
    decreases |published.Keys| + 1 - i
  {
    if i in published {
      BelowIs(i + 1);
      SubsetSize(Below(i + 1), published.Keys);
      n := FirstMissing(published, i + 1);
    } else {
      n := i;
    }
  }

  lemma {:induction false} SubsetSize(a: set<nat>, b: set<nat>)
    requires a <= b
    ensures |a| <= |b|
    decreases |a|
  {
    if a != {} {
      var x :| x in a;
      SubsetSize(a - {x}, b - {x});
    }
  }

  // ---------- the reader ----------

  /** What the reader accepts. */
  predicate IsReadable(published: map<nat, Revision>) {
    && (forall k :: k in published ==> k < |published|) && (forall k :: 0 <= k < |published| ==> k in published)
    && IsChain(published) && DistinctIds(published)
  }

  /** The head of the chain, if there is one; nothing when the directory must be reconciled. */
  function ReadAuthority(published: map<nat, Revision>): Option<Option<Revision>> {
    if !IsReadable(published) then None
    else if published == map[] then Some(None)
    else Some(Some(published[|published| - 1]))
  }

  /** The numbers of the published revisions in ascending order. */
  ghost predicate IsListing(items: seq<nat>, published: map<nat, Revision>) {
    && (forall i, j :: 0 <= i < j < |items| ==> items[i] < items[j])
    && forall k :: k in published <==> k in items
  }

  /** The part of the directory that the reader has checked. */
  ghost predicate ReadSoFar(published: map<nat, Revision>, n: nat, ids: set<TransitionId>) {
    && (forall k: nat :: k < n ==>
          && k in published && published[k].number == k && WellFormedRevision(published[k])
          && (k > 0 ==> k - 1 in published && Follows(published[k - 1], published[k])))
    && (forall j: nat, k: nat :: j < k < n ==> published[j].transitionId != published[k].transitionId)
    && ids == set k: nat | k < n :: published[k].transitionId
  }

  /** Reads the chain from its listing; a record that fails the schema is refused like a gap. */
  method ReadHandoffAuthority(items: seq<nat>, published: map<nat, Revision>) returns (r: Option<Option<Revision>>)
    requires IsListing(items, published)
    ensures r == ReadAuthority(published)
  {
    hide IsReadable, ReadSoFar, WellFormedRevision, IsListing;
    if |items| == 0 {
      NothingPublished(published);
      return Some(None);
    }
    NothingRead(published);
    var ids: set<TransitionId>, previous: Option<Revision>, launchHash: Option<Launch> := {}, None, None;
    for index := 0 to |items|
      invariant forall i :: 0 <= i < index ==> items[i] == i
      invariant ReadSoFar(published, index, ids)
      invariant index == 0 ==> previous == None && launchHash == None
      invariant index > 0 ==> index - 1 in published && previous == Some(published[index - 1])
      invariant index > 0 ==> previous.value.number == index - 1 && launchHash == Some(previous.value.launchHash)
    {
      Rejected(items, published, index, ids);
      if items[index] != index { return None; }
      var current := published[index];
      if !WellFormedRevision(current) { return None; }
      var linked := current.previous == previous || (index == 0 && current.previous == None);
      if current.number != index || !linked { return None; }
      if current.transitionId in ids { return None; }
      if index == 0 { launchHash := Some(current.launchHash); }
      if Some(current.launchHash) != launchHash
         || (previous.Some? && current.handoff.identity != previous.value.handoff.identity) { return None; }
      ReadNext(published, index, ids);
      ids := ids + {current.transitionId};
      previous := Some(current);
    }
    Accepted(items, published, ids);
    return Some(previous);
  }

  lemma NothingRead(published: map<nat, Revision>)
    ensures ReadSoFar(published, 0, {})
  {
  }

  lemma NothingPublished(published: map<nat, Revision>)
    requires IsListing([], published)
    ensures published == map[] && IsReadable(published)
  {
  }

  /** Why the reader may reject the entry after a checked part. */
  lemma Rejected(items: seq<nat>, published: map<nat, Revision>, index: nat, ids: set<TransitionId>)
    requires IsListing(items, published) && index < |items| && ReadSoFar(published, index, ids)
    requires forall i :: 0 <= i < index ==> items[i] == i
    ensures items[index] in published
    ensures items[index] != index ==> !IsReadable(published)
    ensures items[index] == index && IsReadable(published) ==>
      var current := published[index];
      && current.number == index && WellFormedRevision(current) && current.transitionId !in ids
      && (index == 0 ==> current.previous == None)
      && (index > 0 ==> Follows(published[index - 1], current))
  {
    assert items[index] in items;
    assert index > 0 ==> items[index - 1] < items[index];
    if items[index] != index {
      forall i | 0 <= i < |items| ensures items[i] != index {
        assert i > index ==> items[index] < items[i];
      }
      assert index !in published;
    }
  }

  /** The next entry is checked. */
  lemma ReadNext(published: map<nat, Revision>, index: nat, ids: set<TransitionId>)
    requires ReadSoFar(published, index, ids) && index in published
    requires
      var current := published[index];
      && current.number == index && WellFormedRevision(current) && current.transitionId !in ids
      && (index > 0 ==> index - 1 in published && Follows(published[index - 1], current))
    ensures ReadSoFar(published, index + 1, ids + {published[index].transitionId})
  {
    hide Follows, WellFormedRevision;
  }

  lemma Accepted(items: seq<nat>, published: map<nat, Revision>, ids: set<TransitionId>)
    requires IsListing(items, published) && ReadSoFar(published, |items|, ids)
    requires forall i :: 0 <= i < |items| ==> items[i] == i
    ensures IsReadable(published) && |published| == |items|
  {
    forall k: nat ensures k in published <==> k < |items| {
      if k in items { var i :| 0 <= i < |items| && items[i] == k; }
      if k < |items| { assert items[k] in items; }
    }
    KeysBelow(published, |items|);
  }
}
