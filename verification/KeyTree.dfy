/**
  Repair and audit of the key tree (harness/key-file-audit.ts).

  Two independent walks: `secureKeyTree` restricts the modes and records what it
  could not restrict, `collectKeyTree` reports what others can reach. Paths are
  relative to the key directory, whose own path is []; the children of a
  directory are listed in the order `readdir(..).sort(compareByName)` gives.
 */
module KeyTree {
  import opened Common

  type Mode = m: int | 0 <= m < 512

  type Path = seq<string>

  /** A file system entry as `lstat` sees it; a link lists what `readdir` finds through it. */
  datatype Entry =
    | File(mode: Mode)
    | Directory(mode: Mode, children: seq<Named>)
    | SymbolicLink(target: seq<Named>)
    | Special(mode: Mode)
    | NotStatable

  datatype Named = Named(name: string, entry: Entry)

  /** The paths whose chmod fails, and the directories that cannot be listed while they have a given mode. */
  datatype Host = Host(failing: set<Path>, unlistable: set<(Path, Mode)>)

  const OWNER_ONLY_DIRECTORY: Mode := 448  // 0o700
  const OWNER_ONLY_FILE: Mode := 384       // 0o600
  const MAX_KEY_TREE_DEPTH := 4

  // ---- Repair ----

  datatype Repair = Repair(failedPaths: seq<Path>, securedFiles: nat, securedDirectories: nat)

  const NOTHING_REPAIRED := Repair([], 0, 0)

  /** What a walk leaves behind, and what it counted. */
  datatype Secured<T> = Secured(after: T, repair: Repair)

  function Failed(before: Repair, path: Path): Repair {
    before.(failedPaths := before.failedPaths + [path])
  }

  /** What the repair makes of one entry, and how its record goes on from `before`. */
  function SecuredEntry(entry: Entry, path: Path, depth: nat, host: Host, before: Repair): Secured<Entry>
    decreases entry, 0
  {
    match entry
    case Directory(mode, children) =>
      if path in host.failing then Secured(entry, Failed(before, path))
      else
        var counted := before.(securedDirectories := before.securedDirectories + 1);
        var below := SecuredListing(children, path, depth + 1, host, counted);
        Secured(Directory(OWNER_ONLY_DIRECTORY, below.after), below.repair)
    case File(mode) =>
      if path in host.failing then Secured(entry, Failed(before, path))
      else Secured(File(OWNER_ONLY_FILE), before.(securedFiles := before.securedFiles + 1))
    case SymbolicLink(_) => Secured(entry, before)
    case Special(_) => Secured(entry, before)
    case NotStatable => Secured(entry, before)
  }

  /** The walk below a directory whose mode is already owner-only. */
  function SecuredListing(children: seq<Named>, dir: Path, depth: nat, host: Host, before: Repair): Secured<seq<Named>>
    decreases children, 1
  {
    if depth > MAX_KEY_TREE_DEPTH || (dir, OWNER_ONLY_DIRECTORY) in host.unlistable
    then Secured(children, before)
    else SecuredChildren(children, dir, depth, host, before)
  }

  function SecuredChildren(children: seq<Named>, dir: Path, depth: nat, host: Host, before: Repair): Secured<seq<Named>>
    decreases children, 0
  {
    if children == [] then Secured([], before)
    else
      var first := SecuredEntry(children[0].entry, dir + [children[0].name], depth, host, before);
      var rest := SecuredChildren(children[1..], dir, depth, host, first.repair);
      Secured([Named(children[0].name, first.after)] + rest.after, rest.repair)
  }

  /** `secureKeyTree` on a platform where chmod expresses the required access. */
  function SecuredTree(root: Entry, host: Host): Secured<Entry> {
    if !root.Directory? then Secured(root, Failed(NOTHING_REPAIRED, []))
    else SecuredEntry(root, [], 0, host, NOTHING_REPAIRED)
  }

  lemma FirstChildSecured(children: seq<Named>, i: nat, dir: Path, depth: nat, host: Host, before: Repair)
    requires i < |children|
    ensures var first := SecuredEntry(children[i].entry, dir + [children[i].name], depth, host, before);
            var rest := SecuredChildren(children[i + 1..], dir, depth, host, first.repair);
            SecuredChildren(children[i..], dir, depth, host, before)
              == Secured([Named(children[i].name, first.after)] + rest.after, rest.repair)
  {
    assert children[i..][0] == children[i] && children[i..][1..] == children[i + 1..];
  }

  class KeyTreeRepair {
    var repair: Repair

    constructor ()
      ensures repair == NOTHING_REPAIRED
    {
      repair := NOTHING_REPAIRED;
    }

    method Fail(path: Path)
      modifies this
      ensures repair == Failed(old(repair), path)
    {
      repair := repair.(failedPaths := repair.failedPaths + [path]);
    }

    /** chmod 0o600, or a recorded failure. */
    method SecureFile(mode: Mode, path: Path, host: Host) returns (after: Mode)
      modifies this
      ensures Secured(File(after), repair) == SecuredEntry(File(mode), path, 0, host, old(repair))
    {
      if path in host.failing {
        Fail(path);
        return mode;
      }
      repair := repair.(securedFiles := repair.securedFiles + 1);
      return OWNER_ONLY_FILE;
    }

    /** The walk below a directory: nothing happens beyond the depth limit or where the directory cannot be listed. */
    method Walk(children: seq<Named>, dir: Path, depth: nat, host: Host) returns (after: seq<Named>)
      modifies this
      ensures Secured(after, repair) == SecuredListing(children, dir, depth, host, old(repair))
      decreases children, 4
    {
      if depth > MAX_KEY_TREE_DEPTH || (dir, OWNER_ONLY_DIRECTORY) in host.unlistable {
        return children;
      }
      after := SecureAll(children, dir, depth, host);
    }

    /** The loop over the entries of a directory. */
    method SecureAll(children: seq<Named>, dir: Path, depth: nat, host: Host) returns (after: seq<Named>)
      modifies this
      ensures Secured(after, repair) == SecuredChildren(children, dir, depth, host, old(repair))
      decreases children, 3
    {
      after := [];
      ghost var total := SecuredChildren(children, dir, depth, host, repair);
      ghost var rest := total;
      assert children[0..] == children;
      for i := 0 to |children|
        invariant rest == SecuredChildren(children[i..], dir, depth, host, repair)
        invariant after + rest.after == total.after && rest.repair == total.repair
      {
        FirstChildSecured(children, i, dir, depth, host, repair);
        var entry := SecureOne(children[i].entry, dir + [children[i].name], depth, host);
        ghost var next := SecuredChildren(children[i + 1..], dir, depth, host, repair);
        assert after + ([Named(children[i].name, entry)] + next.after) == (after + [Named(children[i].name, entry)]) + next.after;
        after := after + [Named(children[i].name, entry)];
        rest := next;
      }
      assert children[|children|..] == [] && after + rest.after == after;
    }

    method SecureOne(entry: Entry, path: Path, depth: nat, host: Host) returns (after: Entry)
      modifies this
      ensures Secured(after, repair) == SecuredEntry(entry, path, depth, host, old(repair))
      decreases entry, 2
    {
      match entry
      case Directory(mode, children) => after := SecureDirectory(mode, children, path, depth, host);
      case File(mode) =>
        var restricted := SecureFile(mode, path, host);
        after := File(restricted);
      case _ => after := entry;
    }

    /** chmod 0o700 and the walk below, or a recorded failure and no walk. */
    method SecureDirectory(mode: Mode, children: seq<Named>, path: Path, depth: nat, host: Host) returns (after: Entry)
      modifies this
      ensures Secured(after, repair) == SecuredEntry(Directory(mode, children), path, depth, host, old(repair))
      decreases children, 5
    {
      if path in host.failing {
        Fail(path);
        return Directory(mode, children);
      }
      repair := repair.(securedDirectories := repair.securedDirectories + 1);
      var below := Walk(children, path, depth + 1, host);
      return Directory(OWNER_ONLY_DIRECTORY, below);
    }
  }

  /** `secureKeyTree`: nothing happens where it is not supported. */
  method SecureKeyTree(root: Entry, supported: bool, host: Host) returns (after: Entry, repair: Repair)
    ensures !supported ==> after == root && repair == NOTHING_REPAIRED
    ensures supported ==> Secured(after, repair) == SecuredTree(root, host)
  {
    if !supported { return root, NOTHING_REPAIRED; }
    var run := new KeyTreeRepair();
    if root.Directory? {
      after := run.SecureOne(root, [], 0, host);
    } else {
      run.Fail([]);
      after := root;
    }
    repair := run.repair;
  }

  // ---- Audit ----

  datatype Readers = Group | Others | GroupAndOthers

  /** Who reaches an entry besides its owner: nobody exactly when all group and others bits are clear. */
  function ReadableBy(mode: Mode): (readers: Option<Readers>)
    ensures readers == None <==> mode % 64 == 0
    // Group bits are 8 to 32, others bits 1 to 4.
    ensures readers == Some(Group) <==> mode % 64 >= 8 && mode % 8 == 0
    ensures readers == Some(Others) <==> 0 < mode % 64 < 8
    ensures readers == Some(GroupAndOthers) <==> mode % 64 > 8 && mode % 8 != 0
  {
    var group, others := (mode / 8) % 8, mode % 8;
    if group == 0 && others == 0 then None
    else if group != 0 && others != 0 then Some(GroupAndOthers)
    else if group != 0 then Some(Group)
    else Some(Others)
  }

  datatype Exposure = Exposure(path: Path, mode: Mode, readers: Readers)

  datatype Audit = Audit(files: seq<Exposure>, directories: seq<Exposure>)

  const NOTHING_EXPOSED := Audit([], [])

  function Exposed(path: Path, mode: Mode): seq<Exposure> {
    match ReadableBy(mode)
    case None => []
    case Some(readers) => [Exposure(path, mode, readers)]
  }

  function Joined(a: Audit, b: Audit): Audit {
    Audit(a.files + b.files, a.directories + b.directories)
  }

  function AuditedEntry(entry: Entry, path: Path, depth: nat, host: Host): Audit
    decreases entry, 0
  {
    match entry
    case Directory(mode, children) =>
      Joined(Audit([], Exposed(path, mode)), AuditedListing(children, path, mode, depth + 1, host))
    case File(mode) => Audit(Exposed(path, mode), [])
    case SymbolicLink(_) => NOTHING_EXPOSED
    case Special(_) => NOTHING_EXPOSED
    case NotStatable => NOTHING_EXPOSED
  }

  function AuditedListing(children: seq<Named>, dir: Path, mode: Mode, depth: nat, host: Host): Audit
    decreases children, 1
  {
    if depth > MAX_KEY_TREE_DEPTH || (dir, mode) in host.unlistable
    then NOTHING_EXPOSED
    else AuditedChildren(children, dir, depth, host)
  }

  function AuditedChildren(children: seq<Named>, dir: Path, depth: nat, host: Host): Audit
    decreases children, 0
  {
    if children == [] then NOTHING_EXPOSED
    else Joined(AuditedEntry(children[0].entry, dir + [children[0].name], depth, host),
                AuditedChildren(children[1..], dir, depth, host))
  }

  /** `collectKeyTree`: unlike the repair it lists the key directory even through a link. */
  function AuditedTree(root: Entry, host: Host): Audit {
    match root
    case Directory(_, _) => AuditedEntry(root, [], 0, host)
    case SymbolicLink(target) => AuditedChildren(target, [], 1, host)
    case File(_) => NOTHING_EXPOSED
    case Special(_) => NOTHING_EXPOSED
    case NotStatable => NOTHING_EXPOSED
  }

  lemma JoinedIsMonoid(a: Audit, b: Audit, c: Audit)
    ensures Joined(a, NOTHING_EXPOSED) == a == Joined(NOTHING_EXPOSED, a)
    ensures Joined(Joined(a, b), c) == Joined(a, Joined(b, c))
  {
    assert a.files + [] == a.files && a.directories + [] == a.directories;
    assert (a.files + b.files) + c.files == a.files + (b.files + c.files);
    assert (a.directories + b.directories) + c.directories == a.directories + (b.directories + c.directories);
  }

  lemma FirstChildAudited(children: seq<Named>, i: nat, dir: Path, depth: nat, host: Host)
    requires i < |children|
    ensures AuditedChildren(children[i..], dir, depth, host)
              == Joined(AuditedEntry(children[i].entry, dir + [children[i].name], depth, host),
                        AuditedChildren(children[i + 1..], dir, depth, host))
  {
    assert children[i..][0] == children[i] && children[i..][1..] == children[i + 1..];
  }

  class KeyTreeAudit {
    var found: Audit

    constructor ()
      ensures found == NOTHING_EXPOSED
    {
      found := NOTHING_EXPOSED;
    }

    /** The audit's own walk over a directory of the given mode. */
    method Walk(children: seq<Named>, dir: Path, depth: nat, host: Host)
      requires depth <= MAX_KEY_TREE_DEPTH
      modifies this
      ensures found == Joined(old(found), AuditedChildren(children, dir, depth, host))
      decreases children, 1
    {
      ghost var rest := AuditedChildren(children, dir, depth, host);
      ghost var goal := Joined(found, rest);
      assert children[0..] == children;
      for i := 0 to |children|
        invariant rest == AuditedChildren(children[i..], dir, depth, host)
        invariant Joined(found, rest) == goal
      {
        ghost var next := AuditedChildren(children[i + 1..], dir, depth, host);
        FirstChildAudited(children, i, dir, depth, host);
        JoinedIsMonoid(found, AuditedEntry(children[i].entry, dir + [children[i].name], depth, host), next);
        Visit(children[i].entry, dir + [children[i].name], depth, host);
        rest := next;
      }
      assert children[|children|..] == [];
      JoinedIsMonoid(found, found, found);
    }

    method Visit(entry: Entry, path: Path, depth: nat, host: Host)
      modifies this
      ensures found == Joined(old(found), AuditedEntry(entry, path, depth, host))
      decreases entry, 2
    {
      JoinedIsMonoid(found, found, found);
      if entry.Directory? {
        var readers := ReadableBy(entry.mode);
        JoinedIsMonoid(found, Audit([], Exposed(path, entry.mode)),
                       AuditedListing(entry.children, path, entry.mode, depth + 1, host));
        if readers.Some? {
          found := found.(directories := found.directories + [Exposure(path, entry.mode, readers.value)]);
        }
        assert found == Joined(old(found), Audit([], Exposed(path, entry.mode)));
        JoinedIsMonoid(found, found, found);
        if depth + 1 <= MAX_KEY_TREE_DEPTH && (path, entry.mode) !in host.unlistable {
          Walk(entry.children, path, depth + 1, host);
        }
      } else if entry.File? {
        var readers := ReadableBy(entry.mode);
        if readers.Some? {
          found := found.(files := found.files + [Exposure(path, entry.mode, readers.value)]);
        }
        assert found == Joined(old(found), Audit(Exposed(path, entry.mode), []));
      }
    }
  }

  method CollectKeyTree(root: Entry, host: Host) returns (found: Audit)
    ensures found == AuditedTree(root, host)
  {
    var run := new KeyTreeAudit();
    JoinedIsMonoid(AuditedTree(root, host), NOTHING_EXPOSED, NOTHING_EXPOSED);
    if root.Directory? {
      run.Visit(root, [], 0, host);
    } else if root.SymbolicLink? {
      run.Walk(root.target, [], 1, host);
    }
    found := run.found;
  }

  // ---- Repair against audit ----

  /** Something at `path` is explained by a recorded failure: the path itself, or a directory above it. */
  ghost predicate Covered(path: Path, failed: seq<Path>) {
    exists i | 0 <= i < |failed| :: failed[i] <= path
  }

  ghost predicate AllCovered(found: seq<Exposure>, failed: seq<Path>) {
    forall i | 0 <= i < |found| :: Covered(found[i].path, failed)
  }

  ghost predicate AllBelow(found: seq<Exposure>, path: Path) {
    forall i | 0 <= i < |found| :: path <= found[i].path
  }

  lemma AuditStaysBelow(entry: Entry, path: Path, depth: nat, host: Host)
    ensures AllBelow(AuditedEntry(entry, path, depth, host).files, path)
    ensures AllBelow(AuditedEntry(entry, path, depth, host).directories, path)
    decreases entry, 0
  {
    if entry.Directory? {
      AuditedChildrenStayBelow(entry.children, path, depth + 1, host);
    }
  }

  lemma AuditedChildrenStayBelow(children: seq<Named>, dir: Path, depth: nat, host: Host)
    ensures AllBelow(AuditedChildren(children, dir, depth, host).files, dir)
    ensures AllBelow(AuditedChildren(children, dir, depth, host).directories, dir)
    decreases children, 0
  {
    if children != [] {
      AuditStaysBelow(children[0].entry, dir + [children[0].name], depth, host);
      AuditedChildrenStayBelow(children[1..], dir, depth, host);
    }
  }

  lemma CoveredByMore(found: seq<Exposure>, failed: seq<Path>, more: seq<Path>)
    requires AllCovered(found, failed) && failed <= more
    ensures AllCovered(found, more)
  {
    forall i | 0 <= i < |found|
      ensures Covered(found[i].path, more)
    {
      var j :| 0 <= j < |failed| && failed[j] <= found[i].path;
      assert more[j] == failed[j];
    }
  }

  /** The record only grows. */
  lemma RepairGrows(entry: Entry, path: Path, depth: nat, host: Host, before: Repair)
    ensures before.failedPaths <= SecuredEntry(entry, path, depth, host, before).repair.failedPaths
    decreases entry, 0
  {
    if entry.Directory? && path !in host.failing {
      RepairGrowsBelow(entry.children, path, depth + 1, host, before.(securedDirectories := before.securedDirectories + 1));
    }
  }

  lemma RepairGrowsBelow(children: seq<Named>, dir: Path, depth: nat, host: Host, before: Repair)
    ensures before.failedPaths <= SecuredChildren(children, dir, depth, host, before).repair.failedPaths
    decreases children, 0
  {
    if children != [] {
      var first := SecuredEntry(children[0].entry, dir + [children[0].name], depth, host, before);
      RepairGrows(children[0].entry, dir + [children[0].name], depth, host, before);
      RepairGrowsBelow(children[1..], dir, depth, host, first.repair);
    }
  }

  lemma RepairedEntryIsCovered(entry: Entry, path: Path, depth: nat, host: Host, before: Repair)
    ensures var secured := SecuredEntry(entry, path, depth, host, before);
            var found := AuditedEntry(secured.after, path, depth, host);
            && AllCovered(found.files, secured.repair.failedPaths)
            && AllCovered(found.directories, secured.repair.failedPaths)
    decreases entry, 1
  {
    if path in host.failing {
      FailedEntryIsCovered(entry, path, depth, host, before);
    } else if entry.Directory? {
      var counted := before.(securedDirectories := before.securedDirectories + 1);
      RepairedListingIsCovered(entry.children, path, depth + 1, host, counted);
      var below := SecuredListing(entry.children, path, depth + 1, host, counted);
      var found := AuditedListing(below.after, path, OWNER_ONLY_DIRECTORY, depth + 1, host);
      assert Exposed(path, OWNER_ONLY_DIRECTORY) == [];
      assert AuditedEntry(SecuredEntry(entry, path, depth, host, before).after, path, depth, host) == found by {
        JoinedIsMonoid(found, found, found);
      }
    }
  }

  lemma FailedEntryIsCovered(entry: Entry, path: Path, depth: nat, host: Host, before: Repair)
    requires path in host.failing
    ensures var secured := SecuredEntry(entry, path, depth, host, before);
            var found := AuditedEntry(secured.after, path, depth, host);
            && AllCovered(found.files, secured.repair.failedPaths)
            && AllCovered(found.directories, secured.repair.failedPaths)
  {
    AuditStaysBelow(entry, path, depth, host);
    if entry.Directory? || entry.File? {
      assert Failed(before, path).failedPaths[|before.failedPaths|] == path;
    }
  }

  lemma RepairedListingIsCovered(children: seq<Named>, dir: Path, depth: nat, host: Host, before: Repair)
    ensures var secured := SecuredListing(children, dir, depth, host, before);
            var found := AuditedListing(secured.after, dir, OWNER_ONLY_DIRECTORY, depth, host);
            && AllCovered(found.files, secured.repair.failedPaths)
            && AllCovered(found.directories, secured.repair.failedPaths)
    decreases children, 1
  {
    if depth <= MAX_KEY_TREE_DEPTH {
      RepairedChildrenAreCovered(children, dir, depth, host, before);
    }
  }

  lemma RepairedChildrenAreCovered(children: seq<Named>, dir: Path, depth: nat, host: Host, before: Repair)
    ensures var secured := SecuredChildren(children, dir, depth, host, before);
            var found := AuditedChildren(secured.after, dir, depth, host);
            && AllCovered(found.files, secured.repair.failedPaths)
            && AllCovered(found.directories, secured.repair.failedPaths)
    decreases children, 0
  {
    if children != [] {
      var path := dir + [children[0].name];
      var first := SecuredEntry(children[0].entry, path, depth, host, before);
      var rest := SecuredChildren(children[1..], dir, depth, host, first.repair);
      RepairedEntryIsCovered(children[0].entry, path, depth, host, before);
      RepairedChildrenAreCovered(children[1..], dir, depth, host, first.repair);
      RepairGrowsBelow(children[1..], dir, depth, host, first.repair);
      var found := AuditedEntry(first.after, path, depth, host);
      CoveredByMore(found.files, first.repair.failedPaths, rest.repair.failedPaths);
      CoveredByMore(found.directories, first.repair.failedPaths, rest.repair.failedPaths);
      var after := SecuredChildren(children, dir, depth, host, before).after;
      assert after[0] == Named(children[0].name, first.after) && after[1..] == rest.after;
    }
  }

  /** After a repair, whatever the audit still reports is a path the repair recorded as failed, or lies below one. */
  lemma AuditAfterRepairIsExplained(root: Entry, host: Host)
    ensures var secured := SecuredTree(root, host);
            var found := AuditedTree(secured.after, host);
            && AllCovered(found.files, secured.repair.failedPaths)
            && AllCovered(found.directories, secured.repair.failedPaths)
            && (secured.repair.failedPaths == [] ==> found == NOTHING_EXPOSED)
  {
    var secured := SecuredTree(root, host);
    var found := AuditedTree(secured.after, host);
    if root.Directory? {
      RepairedEntryIsCovered(root, [], 0, host, NOTHING_REPAIRED);
      assert found.files != [] ==> Covered(found.files[0].path, secured.repair.failedPaths);
      assert found.directories != [] ==> Covered(found.directories[0].path, secured.repair.failedPaths);
    } else {
      assert secured.repair.failedPaths[0] == [];
    }
  }

  // ---- What the repair leaves alone ----

  /** The permission bit 2^k is set. */
  predicate HasBit(mode: Mode, bit: nat)
    requires bit in {1, 2, 4, 8, 16, 32, 64, 128, 256}
  {
    (mode / bit) % 2 == 1
  }

  /** Nobody but the owner gains a permission; the owner may gain some. */
  ghost predicate OpensToNobodyElse(before: Mode, after: Mode) {
    forall bit: nat | bit in {1, 2, 4, 8, 16, 32} :: HasBit(after, bit) ==> HasBit(before, bit)
  }

  lemma OwnerOnlyHasNoOtherBit(bit: nat)
    requires bit in {1, 2, 4, 8, 16, 32}
    ensures !HasBit(OWNER_ONLY_FILE, bit) && !HasBit(OWNER_ONLY_DIRECTORY, bit)
  {
  }

  /** Both owner-only modes clear every group and others bit; a file of mode 0o400 does gain the owner's write bit. */
  lemma OwnerOnlyOpensToNobodyElse(before: Mode)
    ensures OpensToNobodyElse(before, OWNER_ONLY_FILE) && OpensToNobodyElse(before, OWNER_ONLY_DIRECTORY)
    ensures OpensToNobodyElse(before, before)
    ensures HasBit(OWNER_ONLY_FILE, 128) && !HasBit(256, 128)
  {
    forall bit: nat | bit in {1, 2, 4, 8, 16, 32}
      ensures !HasBit(OWNER_ONLY_FILE, bit) && !HasBit(OWNER_ONLY_DIRECTORY, bit)
    {
      OwnerOnlyHasNoOtherBit(bit);
    }
  }

  /** `after` has the shape of `before`; a changed mode is the owner-only one of its kind and opens the entry to nobody
      else; and nothing that is a link, is special, or lies beyond the depth limit differs at all. */
  ghost predicate OnlyMadeOwnerOnly(before: Entry, after: Entry, depth: nat)
    decreases before, 0
  {
    if depth > MAX_KEY_TREE_DEPTH then after == before
    else
      match before
      case Directory(mode, children) =>
        && after.Directory?
        && (after.mode == mode || after.mode == OWNER_ONLY_DIRECTORY)
        && OpensToNobodyElse(mode, after.mode)
        && ChildrenOnlyMadeOwnerOnly(children, after.children, depth + 1)
      case File(mode) => (after == before || after == File(OWNER_ONLY_FILE)) && OpensToNobodyElse(mode, after.mode)
      case SymbolicLink(_) => after == before
      case Special(_) => after == before
      case NotStatable => after == before
  }

  ghost predicate ChildrenOnlyMadeOwnerOnly(before: seq<Named>, after: seq<Named>, depth: nat)
    decreases before, 0
  {
    && |before| == |after|
    && (before != [] ==>
          && before[0].name == after[0].name
          && OnlyMadeOwnerOnly(before[0].entry, after[0].entry, depth)
          && ChildrenOnlyMadeOwnerOnly(before[1..], after[1..], depth))
  }

  lemma UnchangedIsOnlyMadeOwnerOnly(entry: Entry, depth: nat)
    ensures OnlyMadeOwnerOnly(entry, entry, depth)
    decreases entry, 0
  {
    if entry.Directory? || entry.File? { OwnerOnlyOpensToNobodyElse(entry.mode); }
    if entry.Directory? && depth <= MAX_KEY_TREE_DEPTH {
      UnchangedChildrenAreOnlyMadeOwnerOnly(entry.children, depth + 1);
    }
  }

  lemma {:induction false} UnchangedChildrenAreOnlyMadeOwnerOnly(children: seq<Named>, depth: nat)
    ensures ChildrenOnlyMadeOwnerOnly(children, children, depth)
    decreases children, 0
  {
    if children != [] {
      UnchangedIsOnlyMadeOwnerOnly(children[0].entry, depth);
      UnchangedChildrenAreOnlyMadeOwnerOnly(children[1..], depth);
    }
  }

  /** The repair of an entry the walk reaches (depth 0 is the key directory) only makes modes owner-only. */
  lemma RepairMakesOwnerOnly(entry: Entry, path: Path, depth: nat, host: Host, before: Repair)
    requires depth <= MAX_KEY_TREE_DEPTH
    ensures OnlyMadeOwnerOnly(entry, SecuredEntry(entry, path, depth, host, before).after, depth)
    decreases entry, 0
  {
    UnchangedIsOnlyMadeOwnerOnly(entry, depth);
    if entry.Directory? || entry.File? { OwnerOnlyOpensToNobodyElse(entry.mode); }
    if entry.Directory? && path !in host.failing {
      if depth + 1 <= MAX_KEY_TREE_DEPTH && (path, OWNER_ONLY_DIRECTORY) !in host.unlistable {
        var counted := before.(securedDirectories := before.securedDirectories + 1);
        RepairedChildrenMadeOwnerOnly(entry.children, path, depth + 1, host, counted);
      }
    }
  }

  lemma RepairedChildrenMadeOwnerOnly(children: seq<Named>, dir: Path, depth: nat, host: Host, before: Repair)
    requires depth <= MAX_KEY_TREE_DEPTH
    ensures ChildrenOnlyMadeOwnerOnly(children, SecuredChildren(children, dir, depth, host, before).after, depth)
    decreases children, 0
  {
    if children != [] {
      var first := SecuredEntry(children[0].entry, dir + [children[0].name], depth, host, before);
      RepairMakesOwnerOnly(children[0].entry, dir + [children[0].name], depth, host, before);
      RepairedChildrenMadeOwnerOnly(children[1..], dir, depth, host, first.repair);
    }
  }

  /** Repairing again changes no mode and records the same failures and counts. */
  lemma RepairIsIdempotent(entry: Entry, path: Path, depth: nat, host: Host, before: Repair)
    ensures var once := SecuredEntry(entry, path, depth, host, before);
            SecuredEntry(once.after, path, depth, host, before) == once
    decreases entry, 0
  {
    if entry.Directory? && path !in host.failing {
      var counted := before.(securedDirectories := before.securedDirectories + 1);
      RepairedChildrenAreStable(entry.children, path, depth + 1, host, counted);
    }
  }

  lemma {:induction false} RepairedChildrenAreStable(children: seq<Named>, dir: Path, depth: nat, host: Host, before: Repair)
    ensures var once := SecuredChildren(children, dir, depth, host, before);
            SecuredChildren(once.after, dir, depth, host, before) == once
    decreases children, 0
  {
    if children != [] {
      var first := SecuredEntry(children[0].entry, dir + [children[0].name], depth, host, before);
      RepairIsIdempotent(children[0].entry, dir + [children[0].name], depth, host, before);
      RepairedChildrenAreStable(children[1..], dir, depth, host, first.repair);
      var once := SecuredChildren(children, dir, depth, host, before);
      assert once.after[1..] == SecuredChildren(children[1..], dir, depth, host, first.repair).after;
    }
  }

  // ---- No failure is hidden ----

  /** The tree has a file or a directory of this mode at `p`. */
  ghost predicate HasMode(entry: Entry, path: Path, p: Path, mode: Mode)
    decreases entry, 0
  {
    match entry
    case Directory(m, children) => (p == path && m == mode) || ChildHasMode(children, path, p, mode)
    case File(m) => p == path && m == mode
    case SymbolicLink(_) => false
    case Special(_) => false
    case NotStatable => false
  }

  ghost predicate ChildHasMode(children: seq<Named>, dir: Path, p: Path, mode: Mode)
    decreases children, 0
  {
    && children != []
    && (HasMode(children[0].entry, dir + [children[0].name], p, mode) || ChildHasMode(children[1..], dir, p, mode))
  }

  ghost predicate IsReported(found: Audit, p: Path, mode: Mode) {
    && ReadableBy(mode).Some?
    && (Exposure(p, mode, ReadableBy(mode).value) in found.files
        || Exposure(p, mode, ReadableBy(mode).value) in found.directories)
  }

  /** A failure at `p` kept its old mode, and is still reported if that mode exposes it. */
  ghost predicate Disclosed(before: Entry, path: Path, found: Audit, p: Path) {
    exists mode: Mode :: HasMode(before, path, p, mode) && (mode % 64 != 0 ==> IsReported(found, p, mode))
  }

  ghost predicate ChildDisclosed(before: seq<Named>, dir: Path, found: Audit, p: Path) {
    exists mode: Mode :: ChildHasMode(before, dir, p, mode) && (mode % 64 != 0 ==> IsReported(found, p, mode))
  }

  lemma FailedEntryIsDisclosed(entry: Entry, path: Path, depth: nat, host: Host, before: Repair, p: Path)
    requires p in SecuredEntry(entry, path, depth, host, before).repair.failedPaths && p !in before.failedPaths
    ensures Disclosed(entry, path, AuditedEntry(SecuredEntry(entry, path, depth, host, before).after, path, depth, host), p)
    decreases entry, 0
  {
    var secured := SecuredEntry(entry, path, depth, host, before);
    if path in host.failing {
      assert p == path && HasMode(entry, path, p, entry.mode);
      assert entry.mode % 64 != 0 ==> Exposed(path, entry.mode)[0] == Exposure(path, entry.mode, ReadableBy(entry.mode).value);
    } else {
      var counted := before.(securedDirectories := before.securedDirectories + 1);
      FailedChildIsDisclosed(entry.children, path, depth + 1, host, counted, p);
      var after := SecuredChildren(entry.children, path, depth + 1, host, counted).after;
      var below := AuditedChildren(after, path, depth + 1, host);
      var mode: Mode :| ChildHasMode(entry.children, path, p, mode) && (mode % 64 != 0 ==> IsReported(below, p, mode));
      assert HasMode(entry, path, p, mode);
      assert secured.after == Directory(OWNER_ONLY_DIRECTORY, after);
      assert AuditedListing(after, path, OWNER_ONLY_DIRECTORY, depth + 1, host) == below;
      assert AuditedEntry(secured.after, path, depth, host) == Joined(NOTHING_EXPOSED, below);
      JoinedIsMonoid(below, below, below);
    }
  }

  lemma FailedChildIsDisclosed(children: seq<Named>, dir: Path, depth: nat, host: Host, before: Repair, p: Path)
    requires p in SecuredChildren(children, dir, depth, host, before).repair.failedPaths && p !in before.failedPaths
    ensures ChildDisclosed(children, dir, AuditedChildren(SecuredChildren(children, dir, depth, host, before).after, dir, depth, host), p)
    decreases children, 0
  {
    var path := dir + [children[0].name];
    var first := SecuredEntry(children[0].entry, path, depth, host, before);
    var rest := SecuredChildren(children[1..], dir, depth, host, first.repair);
    assert SecuredChildren(children, dir, depth, host, before).after[1..] == rest.after;
    if p in first.repair.failedPaths {
      FailedEntryIsDisclosed(children[0].entry, path, depth, host, before, p);
      var found := AuditedEntry(first.after, path, depth, host);
      var mode: Mode :| HasMode(children[0].entry, path, p, mode) && (mode % 64 != 0 ==> IsReported(found, p, mode));
      assert ChildHasMode(children, dir, p, mode);
    } else {
      FailedChildIsDisclosed(children[1..], dir, depth, host, first.repair, p);
      var found := AuditedChildren(rest.after, dir, depth, host);
      var mode: Mode :| ChildHasMode(children[1..], dir, p, mode) && (mode % 64 != 0 ==> IsReported(found, p, mode));
      assert ChildHasMode(children, dir, p, mode);
    }
  }

  // ---- What the audit reports, without its walk ----

  datatype Kind = IsFile | IsDirectory

  predicate IsA(entry: Entry, kind: Kind, mode: Mode) {
    match kind
    case IsFile => entry == File(mode)
    case IsDirectory => entry.Directory? && entry.mode == mode
  }

  /** From the entry at `path` the names lead, through directories that can be listed with the modes they have, to a file
      or a directory of this mode. */
  ghost predicate Leads(entry: Entry, path: Path, names: seq<string>, host: Host, kind: Kind, mode: Mode)
    decreases |names|
  {
    if names == [] then IsA(entry, kind, mode)
    else
      && entry.Directory? && (path, entry.mode) !in host.unlistable
      && exists i | 0 <= i < |entry.children| ::
           entry.children[i].name == names[0] && Leads(entry.children[i].entry, path + [names[0]], names[1..], host, kind, mode)
  }

  /** What has to be reported of the entry at `path`: everything the names lead to within the depth limit that has a bit for
      the group or the others, with its own path and mode. */
  ghost predicate IsExposure(entry: Entry, path: Path, depth: nat, host: Host, kind: Kind, x: Exposure) {
    && path <= x.path && depth + |x.path| - |path| <= 4
    && Leads(entry, path, x.path[|path|..], host, kind, x.mode)
    && x.mode % 64 != 0 && ReadableBy(x.mode) == Some(x.readers)
  }

  ghost predicate IsChildExposure(children: seq<Named>, dir: Path, depth: nat, host: Host, kind: Kind, x: Exposure) {
    exists i | 0 <= i < |children| :: IsExposure(children[i].entry, dir + [children[i].name], depth, host, kind, x)
  }

  function Reported(found: Audit, kind: Kind): seq<Exposure> {
    match kind
    case IsFile => found.files
    case IsDirectory => found.directories
  }

  lemma JoinedReports(a: Audit, b: Audit, kind: Kind, x: Exposure)
    ensures x in Reported(Joined(a, b), kind) <==> x in Reported(a, kind) || x in Reported(b, kind)
  {
  }

  /** An exposure below a directory is one of one of its children. */
  lemma ExposureBelow(mode: Mode, children: seq<Named>, path: Path, depth: nat, host: Host, kind: Kind, x: Exposure)
    requires depth <= MAX_KEY_TREE_DEPTH && x.path != path
    ensures IsExposure(Directory(mode, children), path, depth, host, kind, x) <==>
              depth < MAX_KEY_TREE_DEPTH && (path, mode) !in host.unlistable && IsChildExposure(children, path, depth + 1, host, kind, x)
  {
    var entry := Directory(mode, children);
    if path <= x.path {
      var names := x.path[|path|..];
      assert x.path == path + names && names != [];
      forall i | 0 <= i < |children|
        ensures IsExposure(children[i].entry, path + [children[i].name], depth + 1, host, kind, x) <==>
                  && children[i].name == names[0] && depth + |names| <= 4
                  && Leads(children[i].entry, path + [names[0]], names[1..], host, kind, x.mode)
                  && x.mode % 64 != 0 && ReadableBy(x.mode) == Some(x.readers)
      {
        var child := path + [children[i].name];
        if child <= x.path {
          assert x.path[|path|] == child[|path|];
        }
        if children[i].name == names[0] {
          assert child + names[1..] == x.path && x.path[|child|..] == names[1..];
        }
      }
    }
  }

  lemma EntryReportsExactly(entry: Entry, path: Path, depth: nat, host: Host, kind: Kind, x: Exposure)
    requires depth <= MAX_KEY_TREE_DEPTH
    ensures x in Reported(AuditedEntry(entry, path, depth, host), kind) <==> IsExposure(entry, path, depth, host, kind, x)
    decreases entry, 1
  {
    if entry.Directory? {
      DirectoryReportsExactly(entry.mode, entry.children, path, depth, host, kind, x);
    } else {
      LeafReports(entry, path, depth, host, kind, x);
    }
  }

  lemma DirectoryReportsExactly(mode: Mode, children: seq<Named>, path: Path, depth: nat, host: Host, kind: Kind, x: Exposure)
    requires depth <= MAX_KEY_TREE_DEPTH
    ensures var entry := Directory(mode, children);
            x in Reported(AuditedEntry(entry, path, depth, host), kind) <==> IsExposure(entry, path, depth, host, kind, x)
    decreases children, 1
  {
    JoinedReports(Audit([], Exposed(path, mode)), AuditedListing(children, path, mode, depth + 1, host), kind, x);
    OwnExposure(path, mode, kind, x);
    ListingReportsExactly(mode, children, path, depth, host, kind, x);
    if x.path == path {
      OwnPath(Directory(mode, children), path, depth, host, kind, x);
      NoChildHasThePath(children, path, depth + 1, host, kind, x);
    } else {
      ExposureBelow(mode, children, path, depth, host, kind, x);
    }
  }

  lemma ListingReportsExactly(mode: Mode, children: seq<Named>, path: Path, depth: nat, host: Host, kind: Kind, x: Exposure)
    requires depth <= MAX_KEY_TREE_DEPTH
    ensures x in Reported(AuditedListing(children, path, mode, depth + 1, host), kind) <==>
              depth < MAX_KEY_TREE_DEPTH && (path, mode) !in host.unlistable && IsChildExposure(children, path, depth + 1, host, kind, x)
    decreases children, 0, 1
  {
    if depth < MAX_KEY_TREE_DEPTH && (path, mode) !in host.unlistable {
      ChildrenReportExactly(children, path, depth + 1, host, kind, x);
    }
  }

  lemma OwnExposure(path: Path, mode: Mode, kind: Kind, x: Exposure)
    ensures x in Reported(Audit([], Exposed(path, mode)), kind) <==>
              kind == IsDirectory && x.path == path && x.mode == mode && mode % 64 != 0 && ReadableBy(mode) == Some(x.readers)
  {
  }

  lemma NoChildHasThePath(children: seq<Named>, dir: Path, depth: nat, host: Host, kind: Kind, x: Exposure)
    requires x.path == dir
    ensures !IsChildExposure(children, dir, depth, host, kind, x)
  {
    forall i | 0 <= i < |children|
      ensures !IsExposure(children[i].entry, dir + [children[i].name], depth, host, kind, x)
    {
      assert |dir + [children[i].name]| > |x.path|;
    }
  }

  lemma OwnPath(entry: Entry, path: Path, depth: nat, host: Host, kind: Kind, x: Exposure)
    requires x.path == path && depth <= MAX_KEY_TREE_DEPTH
    ensures IsExposure(entry, path, depth, host, kind, x) <==>
              IsA(entry, kind, x.mode) && x.mode % 64 != 0 && ReadableBy(x.mode) == Some(x.readers)
  {
    assert x.path[|path|..] == [];
  }

  lemma LeafReports(entry: Entry, path: Path, depth: nat, host: Host, kind: Kind, x: Exposure)
    requires !entry.Directory? && depth <= MAX_KEY_TREE_DEPTH
    ensures x in Reported(AuditedEntry(entry, path, depth, host), kind) <==> IsExposure(entry, path, depth, host, kind, x)
  {
    if x.path == path {
      OwnPath(entry, path, depth, host, kind, x);
    } else if path <= x.path {
      assert x.path == path + x.path[|path|..];
      assert x.path[|path|..] != [];
    }
  }

  lemma ChildrenReportExactly(children: seq<Named>, dir: Path, depth: nat, host: Host, kind: Kind, x: Exposure)
    requires depth <= MAX_KEY_TREE_DEPTH
    ensures x in Reported(AuditedChildren(children, dir, depth, host), kind) <==> IsChildExposure(children, dir, depth, host, kind, x)
    decreases children, 0, 0
  {
    if children != [] {
      var path := dir + [children[0].name];
      EntryReportsExactly(children[0].entry, path, depth, host, kind, x);
      ChildrenReportExactly(children[1..], dir, depth, host, kind, x);
      JoinedReports(AuditedEntry(children[0].entry, path, depth, host), AuditedChildren(children[1..], dir, depth, host), kind, x);
      FirstOrLater(children, dir, depth, host, kind, x);
    }
  }

  lemma FirstOrLater(children: seq<Named>, dir: Path, depth: nat, host: Host, kind: Kind, x: Exposure)
    requires children != []
    ensures IsChildExposure(children, dir, depth, host, kind, x) <==>
              || IsExposure(children[0].entry, dir + [children[0].name], depth, host, kind, x)
              || IsChildExposure(children[1..], dir, depth, host, kind, x)
  {
    if IsChildExposure(children[1..], dir, depth, host, kind, x) {
      var i :| 0 <= i < |children[1..]| && IsExposure(children[1..][i].entry, dir + [children[1..][i].name], depth, host, kind, x);
      assert children[1..][i] == children[i + 1];
    }
    if i :| 0 < i < |children| && IsExposure(children[i].entry, dir + [children[i].name], depth, host, kind, x) {
      assert children[1..][i - 1] == children[i];
    }
  }

  /** The audit of any tree, repaired or not: a file or directory at most four levels down, below directories that can be
      listed with their modes, is reported, once it has a bit for the group or the others, with exactly its path and mode;
      and nothing else is reported. Files and directories are told apart, and a linked key directory is walked through. */
  lemma AuditReportsExactly(root: Entry, host: Host, kind: Kind, x: Exposure)
    ensures root.Directory? ==>
              (x in Reported(AuditedTree(root, host), kind) <==>
                 |x.path| <= 4 && Leads(root, [], x.path, host, kind, x.mode)
                 && x.mode % 64 != 0 && ReadableBy(x.mode) == Some(x.readers))
    ensures root.SymbolicLink? ==>
              (x in Reported(AuditedTree(root, host), kind) <==> IsChildExposure(root.target, [], 1, host, kind, x))
    ensures !root.Directory? && !root.SymbolicLink? ==> AuditedTree(root, host) == NOTHING_EXPOSED
  {
    if root.Directory? {
      EntryReportsExactly(root, [], 0, host, kind, x);
      assert x.path[0..] == x.path;
    } else if root.SymbolicLink? {
      ChildrenReportExactly(root.target, [], 1, host, kind, x);
    }
  }

  // ---- What the repair visits, without its record ----

  datatype Visit = Visit(path: Path, kind: Kind)

  /** The names lead to a file or a directory through directories that were made owner-only and can then be listed. */
  ghost predicate RepairLeads(entry: Entry, path: Path, names: seq<string>, host: Host, kind: Kind)
    decreases |names|
  {
    if names == [] then (if kind == IsFile then entry.File? else entry.Directory?)
    else
      && entry.Directory? && path !in host.failing && (path, OWNER_ONLY_DIRECTORY) !in host.unlistable
      && exists i | 0 <= i < |entry.children| ::
           entry.children[i].name == names[0] && RepairLeads(entry.children[i].entry, path + [names[0]], names[1..], host, kind)
  }

  ghost predicate IsVisit(entry: Entry, path: Path, depth: nat, host: Host, v: Visit) {
    && path <= v.path && depth + |v.path| - |path| <= 4
    && RepairLeads(entry, path, v.path[|path|..], host, v.kind)
  }

  ghost predicate IsChildVisit(children: seq<Named>, dir: Path, depth: nat, host: Host, v: Visit) {
    exists i | 0 <= i < |children| :: IsVisit(children[i].entry, dir + [children[i].name], depth, host, v)
  }

  /** The entries whose mode the repair tries to change, in its order. */
  function Visits(entry: Entry, path: Path, depth: nat, host: Host): seq<Visit>
    decreases entry, 0
  {
    match entry
    case Directory(_, children) =>
      [Visit(path, IsDirectory)]
      + if path in host.failing || depth >= MAX_KEY_TREE_DEPTH || (path, OWNER_ONLY_DIRECTORY) in host.unlistable then []
        else ChildVisits(children, path, depth + 1, host)
    case File(_) => [Visit(path, IsFile)]
    case _ => []
  }

  function ChildVisits(children: seq<Named>, dir: Path, depth: nat, host: Host): seq<Visit>
    decreases children, 0
  {
    if children == [] then []
    else Visits(children[0].entry, dir + [children[0].name], depth, host) + ChildVisits(children[1..], dir, depth, host)
  }

  function FailedOf(visits: seq<Visit>, host: Host): seq<Path> {
    if visits == [] then []
    else (if visits[0].path in host.failing then [visits[0].path] else []) + FailedOf(visits[1..], host)
  }

  function CountOf(visits: seq<Visit>, kind: Kind, host: Host): nat {
    if visits == [] then 0
    else (if visits[0].kind == kind && visits[0].path !in host.failing then 1 else 0) + CountOf(visits[1..], kind, host)
  }

  lemma OfAppend(a: seq<Visit>, b: seq<Visit>, kind: Kind, host: Host)
    ensures FailedOf(a + b, host) == FailedOf(a, host) + FailedOf(b, host)
    ensures CountOf(a + b, kind, host) == CountOf(a, kind, host) + CountOf(b, kind, host)
  {
    if a == [] {
      assert a + b == b;
    } else {
      assert (a + b)[1..] == a[1..] + b;
      OfAppend(a[1..], b, kind, host);
    }
  }

  /** The record of a repair: every visited path whose chmod fails, in order, and one count for each of the others, by kind. */
  ghost predicate Records(before: Repair, after: Repair, visits: seq<Visit>, host: Host) {
    && after.failedPaths == before.failedPaths + FailedOf(visits, host)
    && after.securedFiles == before.securedFiles + CountOf(visits, IsFile, host)
    && after.securedDirectories == before.securedDirectories + CountOf(visits, IsDirectory, host)
  }

  lemma RecordsAppend(a: Repair, b: Repair, c: Repair, first: seq<Visit>, second: seq<Visit>, host: Host)
    requires Records(a, b, first, host) && Records(b, c, second, host)
    ensures Records(a, c, first + second, host)
  {
    OfAppend(first, second, IsFile, host);
    OfAppend(first, second, IsDirectory, host);
  }

  lemma RepairRecords(entry: Entry, path: Path, depth: nat, host: Host, before: Repair)
    ensures Records(before, SecuredEntry(entry, path, depth, host, before).repair, Visits(entry, path, depth, host), host)
    decreases entry, 0
  {
    match entry
    case Directory(_, children) =>
      var own := [Visit(path, IsDirectory)];
      assert own[1..] == [];
      if path !in host.failing {
        var counted := before.(securedDirectories := before.securedDirectories + 1);
        assert Records(before, counted, own, host);
        if depth < MAX_KEY_TREE_DEPTH && (path, OWNER_ONLY_DIRECTORY) !in host.unlistable {
          RepairRecordsBelow(children, path, depth + 1, host, counted);
          var after := SecuredChildren(children, path, depth + 1, host, counted).repair;
          RecordsAppend(before, counted, after, own, ChildVisits(children, path, depth + 1, host), host);
        }
      }
    case File(_) => assert [Visit(path, IsFile)][1..] == [];
    case _ =>
  }

  lemma RepairRecordsBelow(children: seq<Named>, dir: Path, depth: nat, host: Host, before: Repair)
    ensures Records(before, SecuredChildren(children, dir, depth, host, before).repair, ChildVisits(children, dir, depth, host), host)
    decreases children, 0
  {
    if children != [] {
      var path := dir + [children[0].name];
      var first := SecuredEntry(children[0].entry, path, depth, host, before).repair;
      RepairRecords(children[0].entry, path, depth, host, before);
      RepairRecordsBelow(children[1..], dir, depth, host, first);
      RecordsAppend(before, first, SecuredChildren(children[1..], dir, depth, host, first).repair,
                    Visits(children[0].entry, path, depth, host), ChildVisits(children[1..], dir, depth, host), host);
    }
  }

  lemma VisitBelow(mode: Mode, children: seq<Named>, path: Path, depth: nat, host: Host, v: Visit)
    requires depth <= MAX_KEY_TREE_DEPTH && v.path != path
    ensures IsVisit(Directory(mode, children), path, depth, host, v) <==>
              && depth < MAX_KEY_TREE_DEPTH && path !in host.failing && (path, OWNER_ONLY_DIRECTORY) !in host.unlistable
              && IsChildVisit(children, path, depth + 1, host, v)
  {
    if path <= v.path {
      var names := v.path[|path|..];
      assert v.path == path + names && names != [];
      forall i | 0 <= i < |children|
        ensures IsVisit(children[i].entry, path + [children[i].name], depth + 1, host, v) <==>
                  && children[i].name == names[0] && depth + |names| <= 4
                  && RepairLeads(children[i].entry, path + [names[0]], names[1..], host, v.kind)
      {
        var child := path + [children[i].name];
        if child <= v.path {
          assert v.path[|path|] == child[|path|];
        }
        if children[i].name == names[0] {
          assert child + names[1..] == v.path && v.path[|child|..] == names[1..];
        }
      }
    }
  }

  /** The repair visits exactly the files and directories that its names lead to, at most four levels down. */
  lemma VisitsExactly(entry: Entry, path: Path, depth: nat, host: Host, v: Visit)
    requires depth <= MAX_KEY_TREE_DEPTH
    ensures v in Visits(entry, path, depth, host) <==> IsVisit(entry, path, depth, host, v)
    decreases entry, 0
  {
    if v.path == path {
      assert v.path[|path|..] == [];
    } else if path <= v.path {
      assert v.path == path + v.path[|path|..] && v.path[|path|..] != [];
    }
    if entry.Directory? {
      if path !in host.failing && depth < MAX_KEY_TREE_DEPTH && (path, OWNER_ONLY_DIRECTORY) !in host.unlistable {
        ChildVisitsExactly(entry.children, path, depth + 1, host, v);
      }
      if v.path != path {
        VisitBelow(entry.mode, entry.children, path, depth, host, v);
      }
    }
  }

  lemma ChildVisitsExactly(children: seq<Named>, dir: Path, depth: nat, host: Host, v: Visit)
    requires depth <= MAX_KEY_TREE_DEPTH
    ensures v in ChildVisits(children, dir, depth, host) <==> IsChildVisit(children, dir, depth, host, v)
    decreases children, 0
  {
    if children != [] {
      VisitsExactly(children[0].entry, dir + [children[0].name], depth, host, v);
      ChildVisitsExactly(children[1..], dir, depth, host, v);
      if IsChildVisit(children[1..], dir, depth, host, v) {
        var i :| 0 <= i < |children[1..]| && IsVisit(children[1..][i].entry, dir + [children[1..][i].name], depth, host, v);
        assert children[1..][i] == children[i + 1];
      }
      if i :| 0 < i < |children| && IsVisit(children[i].entry, dir + [children[i].name], depth, host, v) {
        assert children[1..][i - 1] == children[i];
      }
    }
  }

  /** Every visited entry whose chmod works ends with the owner-only mode of its kind. */
  lemma VisitedIsOwnerOnly(entry: Entry, path: Path, depth: nat, host: Host, before: Repair, v: Visit)
    requires v in Visits(entry, path, depth, host) && v.path !in host.failing
    ensures HasMode(SecuredEntry(entry, path, depth, host, before).after, path, v.path, if v.kind == IsFile then 384 else 448)
    decreases entry, 0
  {
    if entry.Directory? && v != Visit(path, IsDirectory) {
      VisitedChildIsOwnerOnly(entry.children, path, depth + 1, host, before.(securedDirectories := before.securedDirectories + 1), v);
    }
  }

  lemma VisitedChildIsOwnerOnly(children: seq<Named>, dir: Path, depth: nat, host: Host, before: Repair, v: Visit)
    requires v in ChildVisits(children, dir, depth, host) && v.path !in host.failing
    ensures ChildHasMode(SecuredChildren(children, dir, depth, host, before).after, dir, v.path, if v.kind == IsFile then 384 else 448)
    decreases children, 0
  {
    var path := dir + [children[0].name];
    var first := SecuredEntry(children[0].entry, path, depth, host, before);
    var after := SecuredChildren(children, dir, depth, host, before).after;
    assert after[1..] == SecuredChildren(children[1..], dir, depth, host, first.repair).after;
    if v in Visits(children[0].entry, path, depth, host) {
      VisitedIsOwnerOnly(children[0].entry, path, depth, host, before, v);
    } else {
      VisitedChildIsOwnerOnly(children[1..], dir, depth, host, first.repair, v);
    }
  }

  /** The whole repair, on a platform that supports it: a key directory that is none is the one failure; otherwise the
      record is that of the visits, which are exactly what the names lead to. */
  lemma RepairOfTree(root: Entry, host: Host, v: Visit)
    ensures var secured := SecuredTree(root, host);
            if !root.Directory? then secured == Secured(root, Repair([[]], 0, 0))
            else
              var visits := Visits(root, [], 0, host);
              && Records(Repair([], 0, 0), secured.repair, visits, host)
              && (v in visits <==> |v.path| <= 4 && RepairLeads(root, [], v.path, host, v.kind))
              && (v in visits && v.path !in host.failing ==> HasMode(secured.after, [], v.path, if v.kind == IsFile then 384 else 448))
  {
    if root.Directory? {
      RepairRecords(root, [], 0, host, NOTHING_REPAIRED);
      VisitsExactly(root, [], 0, host, v);
      assert v.path[0..] == v.path;
      if v in Visits(root, [], 0, host) && v.path !in host.failing {
        VisitedIsOwnerOnly(root, [], 0, host, NOTHING_REPAIRED, v);
      }
    }
  }
}
