/// The semantics of a provider filesystem: atomic renames into and out of quarantine, and unlinking
/// (internal/cachefs/fake.go, internal/cacheartifact/identity.go).

module CacheFs {
  import opened Common

  /// The metadata of one entry; `stamp` stands for mode, link count and the four times.
  datatype Identity = Identity(uid: nat, device: nat, inode: nat, kind: string, size: int, stamp: nat) {
    predicate SameObject(other: Identity) {
      uid == other.uid && device == other.device && inode == other.inode && kind == other.kind
    }
  }

  /// A provider entry, or an entry of the provider-local quarantine directory.
  datatype Path = Live(root: string, name: string) | Held(root: string, id: string)

  /// The digest of a path with the complete metadata of what is there.
  datatype Manifest = Manifest(path: Path, identity: Identity)

  datatype Files = Files(roots: map<string, Identity>, entries: map<Path, Identity>)

  datatype Outcome = Done | Fault | ChangedIdentity | DestinationExists

  predicate RootUnchanged(fs: Files, root: string, expected: Identity) {
    root in fs.roots && fs.roots[root].SameObject(expected)
  }

  predicate IsAt(fs: Files, p: Path, identity: Identity) { p in fs.entries && fs.entries[p] == identity }

  /// The checks that both renames make before they touch anything.
  function CanMove(fs: Files, src: Path, dst: Path, root: Identity, expected: Identity, fault: bool): Outcome {
    if fault then Fault
    else if !RootUnchanged(fs, src.root, root) || !IsAt(fs, src, expected) then ChangedIdentity
    else if dst in fs.entries then DestinationExists
    else Done
  }

  function CanRemove(fs: Files, p: Path, root: Identity, expected: Identity, fault: bool): Outcome {
    if fault then Fault
    else if !RootUnchanged(fs, p.root, root) || !IsAt(fs, p, expected) then ChangedIdentity
    else Done
  }

  function Renamed(fs: Files, src: Path, dst: Path): Files
    requires src in fs.entries
  {
    fs.(entries := (fs.entries - {src})[dst := fs.entries[src]])
  }

  function Removed(fs: Files, p: Path): Files { fs.(entries := fs.entries - {p}) }

  // ---------------------------------------------------------------------------------------------
  // Conservation
  // ---------------------------------------------------------------------------------------------

  function Holders(fs: Files, identity: Identity): set<Path> { set p | p in fs.entries && fs.entries[p] == identity }

  /// In how many places this exact identity is.
  function Count(fs: Files, identity: Identity): nat { |Holders(fs, identity)| }

  /// A rename onto an absent path neither creates nor loses any identity.
  lemma RenameConserves(fs: Files, src: Path, dst: Path, identity: Identity)
    requires src in fs.entries && dst !in fs.entries
    ensures Count(Renamed(fs, src, dst), identity) == Count(fs, identity)
  {
    var before, after := Holders(fs, identity), Holders(Renamed(fs, src, dst), identity);
    if fs.entries[src] == identity {
      assert after == before - {src} + {dst};
      assert src in before && dst !in before;
    } else {
      assert after == before;
    }
  }

  lemma RemoveTakesOne(fs: Files, p: Path, identity: Identity)
    requires p in fs.entries
    ensures Count(Removed(fs, p), identity) == Count(fs, identity) - if fs.entries[p] == identity then 1 else 0
  {
    var before, after := Holders(fs, identity), Holders(Removed(fs, p), identity);
    if fs.entries[p] == identity {
      assert after == before - {p};
      assert p in before;
    } else {
      assert after == before;
    }
  }

  /// After a rename the rename back is possible, and it restores every file.
  lemma RenameBack(fs: Files, src: Path, dst: Path, root: Identity, expected: Identity)
    requires src.root == dst.root && CanMove(fs, src, dst, root, expected, false) == Done
    ensures CanMove(Renamed(fs, src, dst), dst, src, root, expected, false) == Done
    ensures Renamed(Renamed(fs, src, dst), dst, src) == fs
  {}

  // ---------------------------------------------------------------------------------------------
  // The deterministic filesystem
  // ---------------------------------------------------------------------------------------------

  class Fake {
    var roots: map<string, Identity>
    var entries: map<Path, Identity>

    constructor ()
      ensures Contents() == Files(map[], map[])
    {
      roots, entries := map[], map[];
    }

    function Contents(): Files reads this { Files(roots, entries) }

    method Quarantine(src: Path, id: string, expectedRoot: Identity, expected: Identity, fault: bool)
      returns (outcome: Outcome)
      modifies this
      ensures outcome == CanMove(old(Contents()), src, Held(src.root, id), expectedRoot, expected, fault)
      ensures Contents() == if outcome.Done? then Renamed(old(Contents()), src, Held(src.root, id)) else old(Contents())
    {
      outcome := Move(src, Held(src.root, id), expectedRoot, expected, fault);
    }

    method Restore(src: Path, dst: Path, expectedRoot: Identity, expected: Identity, fault: bool)
      returns (outcome: Outcome)
      modifies this
      ensures outcome == CanMove(old(Contents()), src, dst, expectedRoot, expected, fault)
      ensures Contents() == if outcome.Done? then Renamed(old(Contents()), src, dst) else old(Contents())
    {
      outcome := Move(src, dst, expectedRoot, expected, fault);
    }

    method Move(src: Path, dst: Path, expectedRoot: Identity, expected: Identity, fault: bool)
      returns (outcome: Outcome)
      modifies this
      ensures outcome == CanMove(old(Contents()), src, dst, expectedRoot, expected, fault)
      ensures Contents() == if outcome.Done? then Renamed(old(Contents()), src, dst) else old(Contents())
    {
      if fault { return Fault; }
      if src.root !in roots || !roots[src.root].SameObject(expectedRoot) { return ChangedIdentity; }
      if src !in entries || entries[src] != expected { return ChangedIdentity; }
      if dst in entries { return DestinationExists; }
      var current := entries[src];
      entries := entries - {src};
      entries := entries[dst := current];
      return Done;
    }

    /// What is at a quarantine path, or an error.
    method QuarantineEntry(p: Path, expectedRoot: Identity, fault: bool)
      returns (readable: bool, current: Option<Identity>)
      ensures readable <==> !fault && RootUnchanged(Contents(), p.root, expectedRoot)
      ensures readable ==> current == if p in entries then Some(entries[p]) else None
    {
      if fault || p.root !in roots || !roots[p.root].SameObject(expectedRoot) { return false, None; }
      readable, current := true, if p in entries then Some(entries[p]) else None;
    }

    /// Deletes one quarantined entry; `partial` makes it report an error after the deletion.
    method Purge(p: Path, expectedRoot: Identity, expected: Identity, fault: bool, partial: bool) returns (failed: bool)
      modifies this
      ensures var can := CanRemove(old(Contents()), p, expectedRoot, expected, fault);
              && Contents() == (if can.Done? then Removed(old(Contents()), p) else old(Contents()))
              && (failed <==> !can.Done? || partial)
    {
      if fault { return true; }
      if p.root !in roots || !roots[p.root].SameObject(expectedRoot) { return true; }
      if p !in entries || entries[p] != expected { return true; }
      entries := entries - {p};
      return partial;
    }
  }
}
