/** Broker-owned output directories: the bounded walk over them and the artifact metadata it fills in. */
module OutputArtifact {
  import opened Wrappers

  const MAX_FILES := 100
  const MAX_BYTES := 16 * 1024 * 1024

  /** A directory tree as the walk sees it; `Unreadable` is any entry whose inspection throws. */
  datatype Node = File(size: nat) | Directory(entries: seq<Node>) | SymbolicLink | Special | Unreadable

  datatype Totals = Totals(fileCount: nat, byteSize: nat)

  predicate WithinLimits(fileCount: nat, byteSize: nat)
  {
    fileCount <= MAX_FILES && byteSize <= MAX_BYTES
  }

  /** The outcome of a walk: totals within the limits, or nothing. */
  type Listing = t: Option<Totals> | t.Some? ==> WithinLimits(t.value.fileCount, t.value.byteSize) witness None

  // ------------------------------------------------------- the fold

  predicate Regular(node: Node)
  {
    match node
    case File(_) => true
    case Directory(entries) => forall e :: e in entries ==> Regular(e)
    case _ => false
  }

  function Files(node: Node): nat
    decreases node, 1
  {
    match node
    case File(_) => 1
    case Directory(entries) => FilesIn(entries)
    case _ => 0
  }

  function FilesIn(entries: seq<Node>): nat
    decreases entries, 0
  {
    if entries == [] then 0 else Files(entries[0]) + FilesIn(entries[1..])
  }

  function Bytes(node: Node): nat
    decreases node, 1
  {
    match node
    case File(size) => size
    case Directory(entries) => BytesIn(entries)
    case _ => 0
  }

  function BytesIn(entries: seq<Node>): nat
    decreases entries, 0
  {
    if entries == [] then 0 else Bytes(entries[0]) + BytesIn(entries[1..])
  }

  /** What `listOutputFiles` returns: the exact totals of an acceptable tree. */
  function Listed(root: Node): Listing
  {
    if root.Directory? && Regular(root) && Files(root) <= MAX_FILES && Bytes(root) <= MAX_BYTES
    then Some(Totals(Files(root), Bytes(root)))
    else None
  }

  // ------------------------------------------------------- the walk with early exit

  class Counter {
    var fileCount: nat
    var byteSize: nat

    constructor ()
      ensures fileCount == 0 && byteSize == 0
    {
      fileCount, byteSize := 0, 0;
    }
  }

  method Visit(entries: seq<Node>, state: Counter) returns (ok: bool)
    requires state.fileCount <= MAX_FILES && state.byteSize <= MAX_BYTES
    modifies state
    ensures ok <==>
      && (forall e :: e in entries ==> Regular(e))
      && old(state.fileCount) + FilesIn(entries) <= MAX_FILES
      && old(state.byteSize) + BytesIn(entries) <= MAX_BYTES
    ensures ok ==> state.fileCount == old(state.fileCount) + FilesIn(entries)
    ensures ok ==> state.byteSize == old(state.byteSize) + BytesIn(entries)
    decreases entries
  {
    for i := 0 to |entries|
      invariant state.fileCount <= MAX_FILES && state.byteSize <= MAX_BYTES
      invariant forall k :: 0 <= k < i ==> Regular(entries[k])
      invariant state.fileCount + FilesIn(entries[i..]) == old(state.fileCount) + FilesIn(entries)
      invariant state.byteSize + BytesIn(entries[i..]) == old(state.byteSize) + BytesIn(entries)
    {
      assert entries[i] in entries && entries[i..][1..] == entries[i + 1..];
      match entries[i] {
        case Directory(inner) =>
          var fine := Visit(inner, state);
          if !fine { return false; }
        case File(size) =>
          state.fileCount := state.fileCount + 1;
          state.byteSize := state.byteSize + size;
          if state.fileCount > MAX_FILES || state.byteSize > MAX_BYTES { return false; }
        case _ => return false;
      }
    }
    return true;
  }

  method ListOutputFiles(root: Node) returns (r: Listing)
    ensures r == Listed(root)
    ensures r.Some? <==> root.Directory? && Regular(root) && Files(root) <= 100 && Bytes(root) <= 16_777_216
    ensures r.Some? ==> r.value == Totals(Files(root), Bytes(root))
  {
    if !root.Directory? { return None; }
    var state := new Counter();
    var ok := Visit(root.entries, state);
    r := if ok then Some(Totals(state.fileCount, state.byteSize)) else None;
  }

  // ------------------------------------------------------- independence of the reading order

  /** The same tree, with the entries of every directory read in some other order. */
  ghost predicate Reordered(a: Node, b: Node)
    decreases a, 1
  {
    match (a, b)
    case (Directory(x), Directory(y)) => ReorderedAll(x, y)
    case _ => a == b
  }

  ghost predicate ReorderedAll(x: seq<Node>, y: seq<Node>)
    decreases x, 0
  {
    if x == [] then y == []
    else exists j :: 0 <= j < |y| && Reordered(x[0], y[j]) && ReorderedAll(x[1..], y[..j] + y[j + 1..])
  }

  lemma RemoveShift(y: seq<Node>, j: nat)
    requires 0 < j < |y|
    ensures y[..j] + y[j + 1..] == [y[0]] + (y[1..][..j - 1] + y[1..][j..])
  {
  }

  lemma {:induction false} RemoveTotals(y: seq<Node>, j: nat)
    requires j < |y|
    ensures FilesIn(y) == Files(y[j]) + FilesIn(y[..j] + y[j + 1..])
    ensures BytesIn(y) == Bytes(y[j]) + BytesIn(y[..j] + y[j + 1..])
  {
    if j > 0 {
      RemoveTotals(y[1..], j - 1);
      RemoveShift(y, j);
      var rest := y[1..][..j - 1] + y[1..][j..];
      assert ([y[0]] + rest)[1..] == rest;
    } else {
      assert y[..0] + y[1..] == y[1..];
    }
  }

  lemma {:induction false} ReorderedTotals(a: Node, b: Node)
    requires Reordered(a, b)
    ensures Regular(a) == Regular(b) && Files(a) == Files(b) && Bytes(a) == Bytes(b)
    decreases a, 1
  {
    if a.Directory? && b.Directory? {
      ReorderedAllTotals(a.entries, b.entries);
    }
  }

  lemma {:induction false} ReorderedAllTotals(x: seq<Node>, y: seq<Node>)
    requires ReorderedAll(x, y)
    ensures (forall e :: e in x ==> Regular(e)) <==> (forall e :: e in y ==> Regular(e))
    ensures FilesIn(x) == FilesIn(y) && BytesIn(x) == BytesIn(y)
    decreases x, 0
  {
    if x != [] {
      var j :| 0 <= j < |y| && Reordered(x[0], y[j]) && ReorderedAll(x[1..], y[..j] + y[j + 1..]);
      var rest := y[..j] + y[j + 1..];
      ReorderedTotals(x[0], y[j]);
      ReorderedAllTotals(x[1..], rest);
      RemoveTotals(y, j);
      RemoveRegular(y, j);
      assert x[..0] + x[1..] == x[1..];
      RemoveRegular(x, 0);
    }
  }

  lemma RemoveRegular(y: seq<Node>, j: nat)
    requires j < |y|
    ensures (forall e :: e in y ==> Regular(e)) <==>
      Regular(y[j]) && forall e :: e in y[..j] + y[j + 1..] ==> Regular(e)
  {
    assert y == y[..j] + [y[j]] + y[j + 1..];
  }

  lemma ListingIgnoresOrder(a: Node, b: Node)
    requires Reordered(a, b)
    ensures Listed(a) == Listed(b)
  {
    ReorderedTotals(a, b);
  }

  // ------------------------------------------------------- artifact metadata

  datatype ArtifactState = Pending | Available | FailedOutput | CancelledOutput | Expired

  datatype Artifact = Artifact(
    artifactId: nat, state: ArtifactState, fileCount: nat, byteSize: nat, createdAt: int, retainedUntil: int)

  function PendingArtifact(artifactId: nat, createdAt: int, retentionMs: int): Artifact
  {
    Artifact(artifactId, Pending, 0, 0, createdAt, createdAt + if retentionMs > 1 then retentionMs else 1)
  }

  /** The root of a pending or available artifact still exists on disk. */
  predicate Live(a: Artifact)
  {
    a.state == Pending || a.state == Available
  }

  /** `finalizeCapabilityArtifact`; the output root is removed unless the result is available. */
  function Finalized(a: Artifact, wanted: ArtifactState, listed: Listing): Artifact
  {
    if wanted != Available then a.(state := wanted, fileCount := 0, byteSize := 0)
    else if listed == None then a.(state := FailedOutput, fileCount := 0, byteSize := 0)
    else a.(state := Available, fileCount := listed.value.fileCount, byteSize := listed.value.byteSize)
  }
}
