/// Removing approved links before native removal, with rollback: all or nothing
/// (internal/worktree/finalizer.go; internal/worktree/filesystem.go).

module LinkFinalizer {
  import opened Common

  /// A directory entry: a symbolic link with its text, or anything else.
  datatype Node = Link(text: string) | Other

  type Directory = map<string, Node>

  datatype Approved = Approved(name: string, text: string)

  /// The size of the buffer that link texts are read into.
  const BUFFER := 4096

  function ReadText(text: string): string { if |text| > BUFFER then text[..BUFFER] else text }

  /// System calls of the removal that fail although the directory would allow them; by position in the list
  /// of links.
  datatype Faults = Faults(stat: set<nat>, read: set<nat>, unlink: set<nat>, restore: set<nat>)

  predicate DistinctNames(links: seq<Approved>) {
    forall i, j :: 0 <= i < j < |links| ==> links[i].name != links[j].name
  }

  const NAMES := {".env", ".envrc"}

  /// Each of the first `n` links has one of the two names, not taken by an earlier one, and the directory
  /// holds it with exactly the approved text.
  predicate ValidatedUpTo(dir: Directory, links: seq<Approved>, n: nat)
    requires n <= |links|
  {
    && (forall i :: 0 <= i < n ==> links[i].name in NAMES && Read(dir, links[i].name, Other) == Link(links[i].text))
    && (forall i, j :: 0 <= i < j < n ==> links[i].name != links[j].name)
  }

  predicate Validated(dir: Directory, links: seq<Approved>) { ValidatedUpTo(dir, links, |links|) }

  /// Reading the entry gives exactly the approved text.
  predicate ReadsAs(dir: Directory, l: Approved) {
    l.name in dir && dir[l.name].Link? && ReadText(dir[l.name].text) == l.text
  }

  /// Every approved link that is present has a text that fits the buffer.
  predicate Fits(dir: Directory, links: seq<Approved>) {
    forall l :: l in links && l.name in dir && dir[l.name].Link? ==> |dir[l.name].text| <= BUFFER
  }

  /// Can link number `i` be unlinked?
  predicate CanUnlink(dir: Directory, links: seq<Approved>, faults: Faults, i: nat)
    requires i < |links|
  {
    ReadsAs(dir, links[i]) && i !in faults.stat && i !in faults.read && i !in faults.unlink
  }

  function Names(links: seq<Approved>): set<string> { set l | l in links :: l.name }

  function Without(dir: Directory, links: seq<Approved>): Directory { dir - Names(links) }

  /// How many links are unlinked before the first that cannot be.
  function Unlinkable(dir: Directory, links: seq<Approved>, faults: Faults, n: nat): (k: nat)
    requires n <= |links|
    ensures k <= n
    ensures forall i :: 0 <= i < k ==> CanUnlink(dir, links, faults, i)
    ensures k < n ==> !CanUnlink(dir, links, faults, k)
  {
    if n == 0 then 0
    else
      var k := Unlinkable(dir, links, faults, n - 1);
      if k == n - 1 && CanUnlink(dir, links, faults, k) then n else k
  }

  /// The names a rollback of `links` leaves missing.
  function LeftMissing(links: seq<Approved>, faults: Faults): set<string> {
    set i | 0 <= i < |links| && i in faults.restore :: links[i].name
  }

  // ---------------------------------------------------------------------------------------------
  // Rollback
  // ---------------------------------------------------------------------------------------------

  /// `dir` with the first `n` links put back, but for those whose restoration fails.
  ghost predicate PutBack(dir: Directory, was: Directory, links: seq<Approved>, faults: Faults, n: nat)
    requires n <= |links|
  {
    && (forall name :: name !in Names(links) ==>
         (name in dir <==> name in was) && (name in was ==> dir[name] == was[name]))
    && (forall i :: 0 <= i < |links| ==>
          if i < n && i !in faults.restore then links[i].name in dir && dir[links[i].name] == Link(links[i].text)
          else links[i].name !in dir)
  }

  /// The first `n` links put back where nothing stood.
  ghost predicate RestoredFrom(dir: Directory, before: Directory, links: seq<Approved>, faults: Faults, n: nat)
    requires n <= |links|
  {
    && (forall name :: name !in Names(links) ==>
         (name in dir <==> name in before) && (name in before ==> dir[name] == before[name]))
    && (forall i :: 0 <= i < |links| ==>
          if i < n && links[i].name !in before && i !in faults.restore then
            links[i].name in dir && dir[links[i].name] == Link(links[i].text)
          else (links[i].name in dir <==> links[i].name in before)
               && (links[i].name in before ==> dir[links[i].name] == before[links[i].name]))
  }

  lemma RestoredIsPutBack(dir: Directory, before: Directory, was: Directory, links: seq<Approved>, faults: Faults)
    requires PutBack(before, was, links, faults, 0) && RestoredFrom(dir, before, links, faults, |links|)
    ensures PutBack(dir, was, links, faults, |links|)
  {}

  lemma NameOf(links: seq<Approved>, i: nat)
    requires i < |links|
    ensures links[i].name in Names(links)
  {}

  /// The directory with the texts of these links cut to what the read buffer holds.
  function AsRead(dir: Directory, links: seq<Approved>): Directory {
    map name | name in dir ::
      if name in Names(links) && dir[name].Link? then Link(ReadText(dir[name].text)) else dir[name]
  }

  function RolledBack(was: Directory, links: seq<Approved>, faults: Faults): Directory {
    AsRead(was, links) - LeftMissing(links, faults)
  }

  /// Restoring exactly what was unlinked gives back the original directory with the texts that were read,
  /// except for the reported names.
  lemma RollbackRestores(dir: Directory, was: Directory, links: seq<Approved>, faults: Faults)
    requires DistinctNames(links) && PutBack(dir, was, links, faults, |links|)
    requires forall l :: l in links ==> ReadsAs(was, l)
    ensures dir == RolledBack(was, links, faults)
  {
    var expected := RolledBack(was, links, faults);
    forall name ensures name in dir <==> name in expected
      ensures name in dir ==> dir[name] == expected[name]
    {
      if name in Names(links) {
        var i :| 0 <= i < |links| && links[i].name == name;
        assert links[i] in links;
      }
    }
  }

  lemma AsReadIsExactIff(dir: Directory, links: seq<Approved>)
    ensures AsRead(dir, links) == dir <==> Fits(dir, links)
  {
    if AsRead(dir, links) == dir {
      forall l | l in links && l.name in dir && dir[l.name].Link? ensures |dir[l.name].text| <= BUFFER {
        assert AsRead(dir, links)[l.name] == Link(ReadText(dir[l.name].text));
      }
    }
  }

  /// With no fault a rollback is exact precisely when the texts of the links that were removed fit the read
  /// buffer: a longer one is compared, and put back, by its first part only.
  lemma RolledBackIsExactIff(was: Directory, removed: seq<Approved>, faults: Faults)
    requires faults.restore == {}
    ensures RolledBack(was, removed, faults) == was <==> Fits(was, removed)
  {
    assert LeftMissing(removed, faults) == {};
    AsReadIsExactIff(was, removed);
  }

  /// The first `n` links were as approved and are gone.
  ghost predicate Removing(dir: Directory, was: Directory, links: seq<Approved>, faults: Faults, n: nat)
    requires n <= |links|
  {
    && Unlinkable(was, links, faults, n) == n && PutBack(dir, was, links[..n], faults, 0)
    && forall j :: 0 <= j < n ==> ReadsAs(was, links[j])
  }

  // ---------------------------------------------------------------------------------------------
  // The finalizer
  // ---------------------------------------------------------------------------------------------

  class Checkout {
    var dir: Directory

    constructor (dir: Directory)
      ensures this.dir == dir
    {
      this.dir := dir;
    }

    /// `restoreApprovedLinksAt`: puts links back, but never over an entry that has appeared meanwhile.
    method Restore(links: seq<Approved>, faults: Faults) returns (failures: nat)
      requires DistinctNames(links)
      modifies this
      ensures RestoredFrom(dir, old(dir), links, faults, |links|)
      ensures failures == 0 <==> forall i :: 0 <= i < |links| ==> links[i].name !in old(dir) && i !in faults.restore
    {
      failures := 0;
      for i := 0 to |links|
        invariant RestoredFrom(dir, old(dir), links, faults, i)
        invariant failures == 0 <==> forall j :: 0 <= j < i ==> links[j].name !in old(dir) && j !in faults.restore
      {
        var l := links[i];
        NameOf(links, i);
        if l.name in dir {
          failures := failures + 1;
        } else if i in faults.restore {
          failures := failures + 1;
        } else {
          dir := dir[l.name := Link(l.text)];
        }
      }
    }

    /// Undoes the removal of exactly these links.
    method RollBack(links: seq<Approved>, faults: Faults, ghost was: Directory)
      requires DistinctNames(links) && PutBack(dir, was, links, faults, 0)
      requires forall l :: l in links ==> ReadsAs(was, l)
      modifies this
      ensures dir == RolledBack(was, links, faults)
    {
      ghost var before := dir;
      var _ := Restore(links, faults);
      RestoredIsPutBack(dir, before, was, links, faults);
      RollbackRestores(dir, was, links, faults);
    }

    /// Looks at one entry, reads it and unlinks it if it is still exactly the approved link.
    method UnlinkOne(l: Approved, statFails: bool, readFails: bool, unlinkFails: bool) returns (gone: bool)
      modifies this
      ensures gone <==> ReadsAs(old(dir), l) && !statFails && !readFails && !unlinkFails
      ensures dir == if gone then old(dir) - {l.name} else old(dir)
    {
      if statFails || l.name !in dir || !dir[l.name].Link? { return false; }
      if readFails || ReadText(dir[l.name].text) != l.text { return false; }
      if unlinkFails { return false; }
      dir := dir - {l.name};
      gone := true;
    }

    /// Undoes an attempt that stopped at link number `i`.
    method Abandon(links: seq<Approved>, faults: Faults, i: nat, ghost was: Directory)
      requires i < |links| && DistinctNames(links) && Removing(dir, was, links, faults, i)
      modifies this
      ensures dir == RolledBack(was, links[..i], faults)
    {
      RollBack(links[..i], faults, was);
    }

    /// `unlinkApprovedLinksAt`: stops at the first link that is not as approved and rolls back.
    method UnlinkApproved(links: seq<Approved>, faults: Faults) returns (ok: bool)
      requires DistinctNames(links)
      modifies this
      ensures ok <==> Unlinkable(old(dir), links, faults, |links|) == |links|
      ensures ok ==> PutBack(dir, old(dir), links, faults, 0) && forall l :: l in links ==> ReadsAs(old(dir), l)
      ensures !ok ==> dir == RolledBack(old(dir), links[..Unlinkable(old(dir), links, faults, |links|)], faults)
    {
      ghost var was := dir;
      StartsRemoving(was, links, faults);
      for i := 0 to |links|
        invariant Removing(dir, was, links, faults, i)
      {
        ghost var before := dir;
        var gone := UnlinkOne(links[i], i in faults.stat, i in faults.read, i in faults.unlink);
        StillThere(before, was, links, faults, i);
        if !gone {
          StopsAt(was, links, faults, i);
          Abandon(links, faults, i, was);
          return false;
        }
        OneMoreGone(dir, before, was, links, faults, i);
      }
      assert links[..|links|] == links;
      ok := true;
    }

    /// `ValidateApprovedLinks`: the whole text of every link is read before anything is touched. `refused`
    /// are the links whose reading or primary target fails.
    method Validate(links: seq<Approved>, refused: set<nat>) returns (ok: bool)
      ensures ok <==> Passes(dir, links, refused)
    {
      var seen := {};
      for i := 0 to |links|
        invariant ValidatedUpTo(dir, links, i) && forall j :: 0 <= j < i ==> j !in refused
        invariant forall name :: name in seen <==> exists j :: 0 <= j < i && links[j].name == name
      {
        var l := links[i];
        if l.name in seen || l.name !in NAMES { return false; }
        seen := seen + {l.name};
        if l.name !in dir || !dir[l.name].Link? || dir[l.name].text != l.text || i in refused { return false; }
      }
      ok := true;
    }

    /// Other programs have changed the directory.
    method Meanwhile(found: Directory)
      modifies this
      ensures dir == found
    {
      dir := found;
    }

    /// Validation, then the links, then native removal, which either takes the checkout away or, failing,
    /// leaves the directory alone.
    method Finalize(links: seq<Approved>, s: Surroundings) returns (ok: bool)
      modifies this
      ensures (ok, dir) == Finalized(old(dir), links, s)
    {
      var passes := Validate(links, s.refused);
      if !passes || !s.opens { return false; }
      Meanwhile(s.found);
      ok := UnlinkApproved(links, s.faults);
      if !ok { return; }
      assert links[..|links|] == links;
      if s.nativeFails {
        RollBack(links, s.faults, s.found);
        return false;
      }
      AllGone(dir, s.found, links, s.faults);
    }
  }

  // ---------------------------------------------------------------------------------------------
  // All or nothing
  // ---------------------------------------------------------------------------------------------

  predicate Passes(dir: Directory, links: seq<Approved>, refused: set<nat>) {
    Validated(dir, links) && forall i :: 0 <= i < |links| ==> i !in refused
  }

  /// What one finalization meets: links that validation refuses for other reasons than the directory,
  /// whether the Git identity and the directory are still the expected ones, what the directory holds when
  /// unlinking starts, and what fails from there on.
  datatype Surroundings =
      Surroundings(refused: set<nat>, opens: bool, found: Directory, faults: Faults, nativeFails: bool)

  /// Success, and what the directory then holds.
  function Finalized(dir: Directory, links: seq<Approved>, s: Surroundings): (bool, Directory) {
    if !Passes(dir, links, s.refused) || !s.opens then (false, dir)
    else
      var k := Unlinkable(s.found, links, s.faults, |links|);
      if k == |links| && !s.nativeFails then (true, Without(s.found, links))
      else (false, RolledBack(s.found, links[..k], s.faults))
  }

  /// The links that a finalization past validation unlinks.
  function Removed(links: seq<Approved>, s: Surroundings): seq<Approved> {
    links[..Unlinkable(s.found, links, s.faults, |links|)]
  }

  lemma RemovedWereRead(links: seq<Approved>, s: Surroundings, l: Approved)
    requires l in Removed(links, s)
    ensures l in links && ReadsAs(s.found, l)
  {
    var k := Unlinkable(s.found, links, s.faults, |links|);
    var i :| 0 <= i < k && links[..k][i] == l;
    assert CanUnlink(s.found, links, s.faults, i);
  }

  /// A link that still has its validated text fits the buffer if the unlink loop accepts it.
  lemma UnchangedFits(dir: Directory, links: seq<Approved>, s: Surroundings, l: Approved)
    requires Validated(dir, links) && l in Removed(links, s) && l.name in dir
    requires Read(s.found, l.name, Other) == dir[l.name]
    ensures s.found[l.name] == Link(l.text) && |l.text| <= BUFFER
  {
    RemovedWereRead(links, s, l);
    var i :| 0 <= i < |links| && links[i] == l;
    assert ReadText(l.text) == l.text;
  }

  /// When nobody changes the directory between validation and unlinking it is all or nothing, however long
  /// the texts: success has removed exactly the approved links, every one of which had exactly the approved
  /// text, and a failure leaves exactly what there was, but for removed links whose restoration failed.
  lemma FinalizeIsAllOrNothing(dir: Directory, links: seq<Approved>, s: Surroundings)
    requires s.found == dir
    ensures Finalized(dir, links, s).0 ==> Validated(dir, links) && Finalized(dir, links, s).1 == Without(dir, links)
    ensures !Finalized(dir, links, s).0 ==>
        Finalized(dir, links, s).1 in {dir, dir - LeftMissing(Removed(links, s), s.faults)}
    ensures !Finalized(dir, links, s).0 && s.faults.restore == {} ==> Finalized(dir, links, s).1 == dir
  {
    if Passes(dir, links, s.refused) {
      var removed := Removed(links, s);
      forall l | l in removed ensures |Read(dir, l.name, Link("")).text| <= BUFFER {
        RemovedWereRead(links, s, l);
        UnchangedFits(dir, links, s, l);
      }
      AsReadIsExactIff(dir, removed);
      if s.faults.restore == {} { RolledBackIsExactIff(dir, removed, s.faults); }
    }
  }

  /// With others changing the directory in between: a failure gives back exactly what they left if and only if
  /// no link that was unlinked had a text too long for the buffer.
  lemma FailureIsExactIff(dir: Directory, links: seq<Approved>, s: Surroundings)
    requires Passes(dir, links, s.refused) && s.opens && s.faults.restore == {} && !Finalized(dir, links, s).0
    ensures Finalized(dir, links, s).1 == s.found <==> Fits(s.found, Removed(links, s))
  {
    RolledBackIsExactIff(s.found, Removed(links, s), s.faults);
  }

  /// Such a text was put there after validation: its first part is the approved text, which fills the buffer.
  lemma LongTextsWereReplaced(dir: Directory, links: seq<Approved>, s: Surroundings, l: Approved)
    requires Validated(dir, links) && l in Removed(links, s)
    requires l.name in s.found && s.found[l.name].Link? && |s.found[l.name].text| > BUFFER
    ensures Read(dir, l.name, Other) == Link(l.text) != s.found[l.name]
    ensures |l.text| == BUFFER && s.found[l.name].text[..BUFFER] == l.text
  {
    RemovedWereRead(links, s, l);
    var i :| 0 <= i < |links| && links[i] == l;
  }

  /// Distinct .env and .envrc links that are there with their whole approved texts, none refused otherwise.
  predicate Approvable(dir: Directory, links: seq<Approved>, refused: set<nat>) {
    && (forall i :: 0 <= i < |links| ==>
          && (links[i].name == ".env" || links[i].name == ".envrc") && i !in refused
          && links[i].name in dir && dir[links[i].name] == Link(links[i].text))
    && (forall i, j :: 0 <= i < |links| && 0 <= j < |links| && i != j ==> links[i].name != links[j].name)
  }

  /// What unlinking link number `i` takes: a link of that name whose text, or the first 4096 characters of it,
  /// is the approved one, and no failing call.
  predicate Removable(found: Directory, links: seq<Approved>, faults: Faults, i: nat)
    requires i < |links|
  {
    && i !in faults.stat && i !in faults.read && i !in faults.unlink
    && links[i].name in found && found[links[i].name].Link?
    && var text := found[links[i].name].text;
       if |text| <= 4096 then text == links[i].text else text[..4096] == links[i].text
  }

  ghost predicate StopsBefore(found: Directory, links: seq<Approved>, faults: Faults, k: nat) {
    && k <= |links| && (forall i :: 0 <= i < k ==> Removable(found, links, faults, i))
    && (k < |links| ==> !Removable(found, links, faults, k))
  }

  /// What a failure leaves after `k` links were unlinked: those back with their approved texts unless their
  /// restoration fails, all else as it was found.
  ghost predicate LeftAfter(result: Directory, found: Directory, links: seq<Approved>, faults: Faults, k: nat)
    requires k <= |links|
  {
    && (forall i :: 0 <= i < k ==>
          if i in faults.restore then links[i].name !in result
          else links[i].name in result && result[links[i].name] == Link(links[i].text))
    && (forall name :: (forall i :: 0 <= i < k ==> links[i].name != name) ==>
          (name in result <==> name in found) && (name in found ==> name in result && result[name] == found[name]))
  }

  lemma StopsAtUnlinkable(found: Directory, links: seq<Approved>, faults: Faults)
    ensures StopsBefore(found, links, faults, Unlinkable(found, links, faults, |links|))
  {
    forall i: nat | i < |links| ensures CanUnlink(found, links, faults, i) <==> Removable(found, links, faults, i) {}
  }

  lemma RolledBackLeaves(found: Directory, links: seq<Approved>, faults: Faults, k: nat)
    requires StopsBefore(found, links, faults, k) && DistinctNames(links)
    ensures LeftAfter(RolledBack(found, links[..k], faults), found, links, faults, k)
  {
    var removed := links[..k];
    forall i | 0 <= i < k
      ensures links[i].name in Names(removed)
      ensures links[i].name in LeftMissing(removed, faults) <==> i in faults.restore
    {
      assert removed[i] == links[i] && removed[i] in removed;
    }
    forall i | 0 <= i < k && i !in faults.restore
      ensures links[i].name in RolledBack(found, removed, faults)
      ensures RolledBack(found, removed, faults)[links[i].name] == Link(links[i].text)
    {
      assert Removable(found, links, faults, i);
      assert ReadText(found[links[i].name].text) == links[i].text;
    }
    forall name | forall i :: 0 <= i < k ==> links[i].name != name ensures name !in Names(removed) {}
  }

  lemma PassesExactly(dir: Directory, links: seq<Approved>, refused: set<nat>)
    ensures Passes(dir, links, refused) <==> Approvable(dir, links, refused)
  {
    if Passes(dir, links, refused) {
      assert forall i :: 0 <= i < |links| ==> Read(dir, links[i].name, Other) == Link(links[i].text);
    }
  }

  /// The whole outcome of a finalization, in terms of the directory before it and as unlinking finds it.
  lemma OutcomeExactly(dir: Directory, links: seq<Approved>, s: Surroundings)
    ensures var r := Finalized(dir, links, s);
            var tried := Approvable(dir, links, s.refused) && s.opens;
            && (r.0 <==>
                 tried && !s.nativeFails && forall i: nat :: i < |links| ==> Removable(s.found, links, s.faults, i))
            && (r.0 ==> forall name ::
                 && (name in r.1 <==> name in s.found && forall i :: 0 <= i < |links| ==> links[i].name != name)
                 && (name in r.1 ==> r.1[name] == s.found[name]))
            && (!tried ==> r == (false, dir))
            && (tried && !r.0 ==>
                 exists k: nat :: StopsBefore(s.found, links, s.faults, k)
                   && LeftAfter(r.1, s.found, links, s.faults, k))
  {
    PassesExactly(dir, links, s.refused);
    var k := Unlinkable(s.found, links, s.faults, |links|);
    StopsAtUnlinkable(s.found, links, s.faults);
    forall name ensures name in Names(links) <==> exists i :: 0 <= i < |links| && links[i].name == name {}
    if Passes(dir, links, s.refused) { RolledBackLeaves(s.found, links, s.faults, k); }
  }

  const LONG: string := seq(BUFFER + 1, _ => 'a')
  const APPROVED := Approved(".env", LONG[..BUFFER])

  /// The link passes validation, then somebody replaces it by one with a longer text, and native removal fails.
  const REPLACED := Surroundings({}, true, map[".env" := Link(LONG)], Faults({}, {}, {}, {}), true)

  /// Concrete run: the replacement passes for the approved link in the unlink loop, and comes back from the
  /// rollback with its last character lost.
  lemma ReplacedLinkComesBackCut()
    ensures var dir: Directory := map[".env" := Link(APPROVED.text)];
            Passes(dir, [APPROVED], {}) && Finalized(dir, [APPROVED], REPLACED) == (false, dir) && dir != REPLACED.found
  {
    var dir: Directory, links := map[".env" := Link(APPROVED.text)], [APPROVED];
    assert |APPROVED.text| == BUFFER && |LONG| == BUFFER + 1;
    assert links[0] == APPROVED && Passes(dir, links, {});
    assert CanUnlink(REPLACED.found, links, REPLACED.faults, 0);
    assert Unlinkable(REPLACED.found, links, REPLACED.faults, 1) == 1;
    assert links[..1] == links && APPROVED in links && ".env" in Names(links);
    assert LeftMissing(links, REPLACED.faults) == {};
    assert AsRead(REPLACED.found, links) == dir;
    assert RolledBack(REPLACED.found, links, REPLACED.faults) == dir;
    assert Finalized(dir, links, REPLACED) == (false, RolledBack(REPLACED.found, links[..1], REPLACED.faults));
    assert dir[".env"] != REPLACED.found[".env"];
  }

  lemma StartsRemoving(was: Directory, links: seq<Approved>, faults: Faults)
    ensures Removing(was, was, links, faults, 0)
  {}

  lemma StopsAt(was: Directory, links: seq<Approved>, faults: Faults, i: nat)
    requires i < |links| && Unlinkable(was, links, faults, i) == i && !CanUnlink(was, links, faults, i)
    ensures Unlinkable(was, links, faults, |links|) == i
  {}

  /// The next link is untouched by the removal of the earlier ones.
  lemma StillThere(dir: Directory, was: Directory, links: seq<Approved>, faults: Faults, i: nat)
    requires i < |links| && DistinctNames(links) && Removing(dir, was, links, faults, i)
    ensures Unlinkable(was, links, faults, i) == i && (ReadsAs(dir, links[i]) <==> ReadsAs(was, links[i]))
  {
    assert links[i].name !in Names(links[..i]) by {
      forall l | l in links[..i] ensures l.name != links[i].name {
        var j :| 0 <= j < i && links[..i][j] == l;
      }
    }
  }

  lemma OneFewerThere(dir: Directory, before: Directory, was: Directory, links: seq<Approved>, faults: Faults, i: nat)
    requires i < |links| && PutBack(before, was, links[..i], faults, 0) && dir == before - {links[i].name}
    ensures PutBack(dir, was, links[..i + 1], faults, 0)
  {}

  lemma OneMoreGone(dir: Directory, before: Directory, was: Directory, links: seq<Approved>, faults: Faults, i: nat)
    requires i < |links| && Removing(before, was, links, faults, i) && CanUnlink(was, links, faults, i)
    requires dir == before - {links[i].name}
    ensures Removing(dir, was, links, faults, i + 1)
  {
    OneFewerThere(dir, before, was, links, faults, i);
  }

  lemma AllGone(dir: Directory, was: Directory, links: seq<Approved>, faults: Faults)
    requires PutBack(dir, was, links, faults, 0)
    ensures dir == Without(was, links)
  {}
}
