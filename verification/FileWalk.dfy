// Recording the files under a directory, through symbolic links that may form cycles (attestation/file/file.go).
module FileWalk {
  import opened Options
  import opened Digests

  type Path = seq<string>

  /** A digest of None stands for a file or directory that cannot be read. */
  datatype Node =
    | File(digest: Option<DigestSet>)
    | Dir(entries: seq<Entry>, hash: Option<DigestSet>)
    | Link

  datatype Entry = Entry(name: string, node: Node)

  /** What evaluating the symbolic links on a path comes to. */
  datatype Resolved = To(target: Path) | Broken | Unresolvable

  datatype FileSystem = FileSystem(root: Node, links: map<Path, Resolved>)

  /** A path relative to the base. The name of a hashed directory ends in a separator; joining paths drops it. */
  datatype Key = Key(names: Path, slash: bool)

  type Artifacts = map<Key, DigestSet>

  datatype Settings = Settings(
    baseArtifacts: Artifacts, processWasTraced: bool, openedFiles: set<Key>, dirHashGlob: seq<Path -> bool>)

  function Join(rel: Path, key: Key): Key {
    Key(rel + key.names, false)
  }

  function Eval(fs: FileSystem, path: Path): Resolved {
    if path in fs.links then fs.links[path] else Unresolvable
  }

  /** Where links can lead: finitely many places, whether or not they lead in circles. */
  function Targets(fs: FileSystem): set<Path> {
    set p | p in fs.links && fs.links[p].To? :: fs.links[p].target
  }

  function Child(entries: seq<Entry>, name: string): Option<Node> {
    if entries == [] then None
    else if entries[0].name == name then Some(entries[0].node)
    else Child(entries[1..], name)
  }

  function Lookup(node: Node, names: Path): Option<Node>
    decreases |names|
  {
    if names == [] then Some(node)
    else if !node.Dir? then None
    else match Child(node.entries, names[0])
      case None => None
      case Some(child) => Lookup(child, names[1..])
  }

  // ---- specification --------------------------------------------------------------------------

  ghost predicate ShouldRecord(s: Settings, path: Key, artifact: DigestSet) {
    && (s.processWasTraced ==> path in s.openedFiles)
    && (path in s.baseArtifacts ==> !Agree(artifact, s.baseArtifacts[path]))
  }

  predicate DirHashed(s: Settings, rel: Path) {
    exists i :: 0 <= i < |s.dirHashGlob| && s.dirHashGlob[i](rel)
  }

  /** What stands at `names` below a node at `rel`, reached without entering a hashed directory. */
  function Reach(s: Settings, node: Node, rel: Path, names: Path): Option<Node>
    decreases |names|
  {
    if names == [] then Some(node)
    else if !node.Dir? || DirHashed(s, rel) then None
    else match Child(node.entries, names[0])
      case None => None
      case Some(child) => Reach(s, child, rel + [names[0]], names[1..])
  }

  /** The entry is that of a file, or of a hashed directory, below the node at `rel`. */
  ghost predicate Direct(s: Settings, node: Node, rel: Path, key: Key, digest: DigestSet) {
    exists names :: DirectAt(s, node, rel, names, key, digest)
  }

  ghost predicate DirectAt(s: Settings, node: Node, rel: Path, names: Path, key: Key, digest: DigestSet) {
    && key.names == rel + names
    && match Reach(s, node, rel, names)
       case Some(File(d)) => !key.slash && d == Some(digest) && ShouldRecord(s, key, digest)
       case Some(Dir(_, h)) => key.slash && h == Some(digest) && DirHashed(s, key.names)
       case _ => false
  }

  /** A link at `names` below the node leads somewhere, and what is `inner` there may be recorded here as `key`. */
  ghost predicate LinkLeads(fs: FileSystem, s: Settings, base: Path, node: Node, rel: Path, names: Path, inner: Key,
                            key: Key, digest: DigestSet)
  {
    && Reach(s, node, rel, names) == Some(Link)
    && key == Join(rel + names, inner) && ShouldRecord(s, key, digest)
    && Eval(fs, base + rel + names).To?
    && Lookup(fs.root, Eval(fs, base + rel + names).target).Some?
  }

  /** The entry derives from a file or hashed directory by crossing `n` links. */
  ghost predicate Derives(fs: FileSystem, s: Settings, base: Path, node: Node, rel: Path, key: Key, digest: DigestSet,
                          n: nat)
    decreases n
  {
    if n == 0 then Direct(s, node, rel, key, digest) else
    exists names, inner ::
      && LinkLeads(fs, s, base, node, rel, names, inner, key, digest)
      && var target := Eval(fs, base + rel + names).target;
         Derives(fs, s, target, Lookup(fs.root, target).value, [], inner, digest, n - 1)
  }

  /** The last link crossed on the way to an entry. */
  lemma CrossesLink(fs: FileSystem, s: Settings, base: Path, node: Node, rel: Path, key: Key, digest: DigestSet, n: nat)
    returns (names: Path, inner: Key)
    requires n > 0 && Derives(fs, s, base, node, rel, key, digest, n)
    ensures LinkLeads(fs, s, base, node, rel, names, inner, key, digest)
    ensures
      var target := Eval(fs, base + rel + names).target;
      Derives(fs, s, target, Lookup(fs.root, target).value, [], inner, digest, n - 1)
  {
    names, inner :|
      && LinkLeads(fs, s, base, node, rel, names, inner, key, digest)
      && var target := Eval(fs, base + rel + names).target;
         Derives(fs, s, target, Lookup(fs.root, target).value, [], inner, digest, n - 1);
  }

  ghost predicate Justified(fs: FileSystem, s: Settings, base: Path, node: Node, rel: Path, key: Key, digest: DigestSet) {
    exists n: nat :: Derives(fs, s, base, node, rel, key, digest, n)
  }

  ghost predicate AllJustified(fs: FileSystem, s: Settings, base: Path, node: Node, rel: Path, artifacts: Artifacts) {
    forall key :: key in artifacts ==> Justified(fs, s, base, node, rel, key, artifacts[key])
  }

  /** Names in a directory are distinct. */
  predicate WellFormed(node: Node) {
    node.Dir? ==>
      && (forall i, j :: 0 <= i < j < |node.entries| ==> node.entries[i].name != node.entries[j].name)
      && (forall i :: 0 <= i < |node.entries| ==> WellFormed(node.entries[i].node))
  }

  lemma {:induction false} ChildIs(entries: seq<Entry>, i: nat)
    requires i < |entries| && forall j, k :: 0 <= j < k < |entries| ==> entries[j].name != entries[k].name
    ensures Child(entries, entries[i].name) == Some(entries[i].node)
  {
    if i > 0 {
      ChildIs(entries[1..], i - 1);
    }
  }

  /** What is derived below an entry is derived below its directory. */
  lemma LiftsToParent(fs: FileSystem, s: Settings, base: Path, node: Node, rel: Path, i: nat, key: Key, digest: DigestSet)
    requires node.Dir? && i < |node.entries| && WellFormed(node) && !DirHashed(s, rel)
    requires Justified(fs, s, base, node.entries[i].node, rel + [node.entries[i].name], key, digest)
    ensures Justified(fs, s, base, node, rel, key, digest)
  {
    var entry := node.entries[i];
    var below := rel + [entry.name];
    ChildIs(node.entries, i);
    var n: nat :| Derives(fs, s, base, entry.node, below, key, digest, n);
    if n == 0 {
      var names :| DirectAt(s, entry.node, below, names, key, digest);
      var longer := [entry.name] + names;
      assert longer[1..] == names && below + names == rel + longer;
      assert DirectAt(s, node, rel, longer, key, digest);
    } else {
      var names, inner := CrossesLink(fs, s, base, entry.node, below, key, digest, n);
      var longer := [entry.name] + names;
      assert longer[1..] == names && below + names == rel + longer;
      assert base + below + names == base + rel + longer;
      assert LinkLeads(fs, s, base, node, rel, longer, inner, key, digest);
    }
    assert Derives(fs, s, base, node, rel, key, digest, n);
  }

  lemma {:induction false} ChildFrom(entries: seq<Entry>, name: string) returns (i: nat)
    requires Child(entries, name).Some?
    ensures i < |entries| && entries[i].name == name && Child(entries, name) == Some(entries[i].node)
  {
    if entries[0].name == name {
      i := 0;
    } else {
      i := ChildFrom(entries[1..], name);
      i := i + 1;
    }
  }

  lemma {:induction false} LookupWellFormed(node: Node, names: Path)
    requires WellFormed(node) && Lookup(node, names).Some?
    ensures WellFormed(Lookup(node, names).value)
    decreases |names|
  {
    if names != [] {
      var i := ChildFrom(node.entries, names[0]);
      LookupWellFormed(node.entries[i].node, names[1..]);
    }
  }

  /** Every derived entry lies below the node it is derived from. */
  lemma JustifiedIsBelow(fs: FileSystem, s: Settings, base: Path, node: Node, rel: Path, key: Key, digest: DigestSet)
    requires Justified(fs, s, base, node, rel, key, digest)
    ensures rel <= key.names
  {
    var n: nat :| Derives(fs, s, base, node, rel, key, digest, n);
    if n == 0 {
      var names :| DirectAt(s, node, rel, names, key, digest);
    } else {
      var names, inner := CrossesLink(fs, s, base, node, rel, key, digest, n);
    }
  }

  // ---- nothing is left out --------------------------------------------------------------------

  predicate Holds(artifacts: Artifacts, key: Key, digest: DigestSet) {
    key in artifacts && artifacts[key] == digest
  }

  /** A file reached at `rel` has been read, and recorded if it should be; a hashed directory has been recorded. */
  ghost predicate EntryDone(s: Settings, rel: Path, reached: Option<Node>, artifacts: Artifacts) {
    match reached
    case Some(File(d)) => d.Some? && (ShouldRecord(s, Key(rel, false), d.value) ==> Holds(artifacts, Key(rel, false), d.value))
    case Some(Dir(_, h)) => DirHashed(s, rel) ==> h.Some? && Holds(artifacts, Key(rel, true), h.value)
    case _ => true
  }

  /** A link reached at `path` could be resolved, and where it leads is marked. */
  ghost predicate LinkDone(fs: FileSystem, path: Path, reached: Option<Node>, marks: set<Path>) {
    reached == Some(Link) ==>
      !Eval(fs, path).Unresolvable? && (Eval(fs, path).To? ==> Eval(fs, path).target in marks)
  }

  ghost predicate Done(fs: FileSystem, s: Settings, base: Path, node: Node, rel: Path, names: Path, artifacts: Artifacts,
                       marks: set<Path>)
  {
    var reached := Reach(s, node, rel, names);
    EntryDone(s, rel + names, reached, artifacts) && LinkDone(fs, base + rel + names, reached, marks)
  }

  /** Everything below the node, reached without crossing a link or a hashed directory, has been dealt with. */
  ghost predicate AllDone(fs: FileSystem, s: Settings, base: Path, node: Node, rel: Path, artifacts: Artifacts,
                          marks: set<Path>)
  {
    forall names :: Done(fs, s, base, node, rel, names, artifacts, marks)
  }

  /** What was found behind a link at `at` is recorded here, relative to here, as far as it should be. */
  ghost predicate Rebased(s: Settings, at: Path, found: Artifacts, artifacts: Artifacts) {
    RebasedBut(s, at, found, {}, artifacts)
  }

  /** The same, but for the keys in `rest`. */
  ghost predicate RebasedBut(s: Settings, at: Path, found: Artifacts, rest: set<Key>, artifacts: Artifacts) {
    forall inner :: inner in found && inner !in rest && ShouldRecord(s, Join(at, inner), found[inner]) ==>
      Holds(artifacts, Join(at, inner), found[inner])
  }

  /**
   * One link that was followed: where it stands below the node, where it leads, what was found there, and the links that
   * were followed from there in turn.
   */
  datatype Branch = Branch(names: Path, target: Path, found: Artifacts, below: seq<Branch>)

  ghost predicate BranchDone(fs: FileSystem, s: Settings, base: Path, node: Node, rel: Path, b: Branch, marks: set<Path>)
    decreases b
  {
    && Reach(s, node, rel, b.names) == Some(Link) && Eval(fs, base + rel + b.names) == To(b.target)
    && Lookup(fs.root, b.target).Some?
    && var target := Lookup(fs.root, b.target).value;
       && AllJustified(fs, s, b.target, target, [], b.found)
       && AllDone(fs, s, b.target, target, [], b.found, marks)
       && (forall i :: 0 <= i < |b.below| ==>
             && BranchDone(fs, s, b.target, target, [], b.below[i], marks)
             && Rebased(s, b.below[i].names, b.below[i].found, b.found))
  }

  /**
   * The whole of a walk: nothing reached is left out, and for every link that was followed the same holds where it leads,
   * with what was found there recorded here too.
   */
  ghost predicate Recorded(fs: FileSystem, s: Settings, base: Path, node: Node, rel: Path, artifacts: Artifacts,
                           branches: seq<Branch>, marks: set<Path>)
  {
    && AllDone(fs, s, base, node, rel, artifacts, marks)
    && (forall i :: 0 <= i < |branches| ==> Followed(fs, s, base, node, rel, artifacts, branches[i], marks))
  }

  ghost predicate Followed(fs: FileSystem, s: Settings, base: Path, node: Node, rel: Path, artifacts: Artifacts,
                           b: Branch, marks: set<Path>)
  {
    BranchDone(fs, s, base, node, rel, b, marks) && Rebased(s, rel + b.names, b.found, artifacts)
  }

  /** The targets of the links followed, in the order in which they were walked. */
  function TargetsOf(branches: seq<Branch>): seq<Path> {
    if branches == [] then [] else TargetsIn(branches[0]) + TargetsOf(branches[1..])
  }

  function TargetsIn(b: Branch): seq<Path> {
    [b.target] + TargetsOf(b.below)
  }

  lemma {:induction false} TargetsAppend(a: seq<Branch>, b: seq<Branch>)
    ensures TargetsOf(a + b) == TargetsOf(a) + TargetsOf(b)
  {
    if a == [] {
      assert a + b == b;
    } else {
      TargetsAppend(a[1..], b);
      assert (a + b)[1..] == a[1..] + b;
      Associates(TargetsIn(a[0]), TargetsOf(a[1..]), TargetsOf(b));
    }
  }

  lemma Associates(a: seq<Path>, b: seq<Path>, c: seq<Path>)
    ensures a + (b + c) == (a + b) + c
  {
  }

  /** Marks only grow, which undoes nothing. */
  lemma {:induction false} BranchStays(fs: FileSystem, s: Settings, base: Path, node: Node, rel: Path, b: Branch,
                                       marks: set<Path>, more: set<Path>)
    requires BranchDone(fs, s, base, node, rel, b, marks) && marks <= more
    ensures BranchDone(fs, s, base, node, rel, b, more)
    decreases b
  {
    var target := Lookup(fs.root, b.target).value;
    DoneStays(fs, s, b.target, target, [], b.found, b.found, marks, more);
    forall i | 0 <= i < |b.below| ensures BranchDone(fs, s, b.target, target, [], b.below[i], more) {
      BranchStays(fs, s, b.target, target, [], b.below[i], marks, more);
    }
  }

  /** `after` has every entry at or below `rel` that `before` has. */
  ghost predicate KeepsBelow(rel: Path, before: Artifacts, after: Artifacts) {
    forall key: Key, digest :: rel <= key.names && Holds(before, key, digest) ==> Holds(after, key, digest)
  }

  lemma DoneStays(fs: FileSystem, s: Settings, base: Path, node: Node, rel: Path, before: Artifacts, after: Artifacts,
                  marks: set<Path>, more: set<Path>)
    requires AllDone(fs, s, base, node, rel, before, marks) && KeepsBelow(rel, before, after) && marks <= more
    ensures AllDone(fs, s, base, node, rel, after, more)
  {
    forall names ensures Done(fs, s, base, node, rel, names, after, more) {
      assert Done(fs, s, base, node, rel, names, before, marks);
    }
  }

  lemma FollowedStays(fs: FileSystem, s: Settings, base: Path, node: Node, rel: Path, at: Path, before: Artifacts,
                      after: Artifacts, b: Branch, marks: set<Path>, more: set<Path>)
    requires Followed(fs, s, base, node, rel, before, b, marks) && marks <= more
    requires at <= rel + b.names && KeepsBelow(at, before, after)
    ensures Followed(fs, s, base, node, rel, after, b, more)
  {
    BranchStays(fs, s, base, node, rel, b, marks, more);
    forall inner | inner in b.found && ShouldRecord(s, Join(rel + b.names, inner), b.found[inner])
      ensures Holds(after, Join(rel + b.names, inner), b.found[inner])
    {
      assert Holds(before, Join(rel + b.names, inner), b.found[inner]);
    }
  }

  lemma NotBelowOther(rel: Path, a: string, b: string, names: Path)
    requires a != b
    ensures !(rel + [b] <= rel + [a] + names)
  {
    assert (rel + [a] + names)[|rel|] == a && (rel + [b])[|rel|] == b;
  }

  /** What one entry of a directory adds leaves the others alone. */
  lemma OtherEntryKeeps(rel: Path, a: string, b: string, artifacts: Artifacts, found: Artifacts)
    requires a != b && forall key :: key in found ==> rel + [b] <= key.names
    ensures KeepsBelow(rel + [a], artifacts, artifacts + found)
  {
    forall key: Key, digest | rel + [a] <= key.names && Holds(artifacts, key, digest)
      ensures Holds(artifacts + found, key, digest)
    {
      NotBelowOther(rel, a, b, key.names[|rel| + 1..]);
      assert rel + [a] + key.names[|rel| + 1..] == key.names;
    }
  }

  // ---- from the entries of a directory to the directory ---------------------------------------

  function Lifted(name: string, b: Branch): Branch {
    b.(names := [name] + b.names)
  }

  function LiftAll(name: string, branches: seq<Branch>): (lifted: seq<Branch>)
    ensures |lifted| == |branches|
    ensures forall i :: 0 <= i < |branches| ==> lifted[i] == Lifted(name, branches[i])
  {
    seq(|branches|, i requires 0 <= i < |branches| => Lifted(name, branches[i]))
  }

  lemma {:induction false} LiftedTargets(name: string, branches: seq<Branch>)
    ensures TargetsOf(LiftAll(name, branches)) == TargetsOf(branches)
  {
    if branches != [] {
      LiftedTargets(name, branches[1..]);
      assert LiftAll(name, branches)[1..] == LiftAll(name, branches[1..]);
    }
  }

  lemma ReachChild(s: Settings, node: Node, rel: Path, i: nat, names: Path)
    requires node.Dir? && WellFormed(node) && i < |node.entries| && !DirHashed(s, rel)
    ensures Reach(s, node, rel, [node.entries[i].name] + names)
      == Reach(s, node.entries[i].node, rel + [node.entries[i].name], names)
  {
    ChildIs(node.entries, i);
    assert ([node.entries[i].name] + names)[1..] == names;
  }

  lemma LiftFollowed(fs: FileSystem, s: Settings, base: Path, node: Node, rel: Path, i: nat, artifacts: Artifacts,
                     b: Branch, marks: set<Path>)
    requires node.Dir? && WellFormed(node) && i < |node.entries| && !DirHashed(s, rel)
    requires Followed(fs, s, base, node.entries[i].node, rel + [node.entries[i].name], artifacts, b, marks)
    ensures Followed(fs, s, base, node, rel, artifacts, Lifted(node.entries[i].name, b), marks)
  {
    var name := node.entries[i].name;
    ReachChild(s, node, rel, i, b.names);
    assert rel + [name] + b.names == rel + ([name] + b.names);
    assert base + (rel + [name]) + b.names == base + rel + ([name] + b.names);
  }

  /** Once all entries of a directory are done, so is the directory. */
  lemma DirDone(fs: FileSystem, s: Settings, base: Path, node: Node, rel: Path, artifacts: Artifacts, marks: set<Path>)
    requires node.Dir? && WellFormed(node) && !DirHashed(s, rel)
    requires forall i :: 0 <= i < |node.entries| ==>
      AllDone(fs, s, base, node.entries[i].node, rel + [node.entries[i].name], artifacts, marks)
    ensures AllDone(fs, s, base, node, rel, artifacts, marks)
  {
    forall names ensures Done(fs, s, base, node, rel, names, artifacts, marks) {
      if names == [] {
        assert rel + [] == rel;
      } else if Child(node.entries, names[0]).Some? {
        var i := ChildFrom(node.entries, names[0]);
        assert rel + [names[0]] + names[1..] == rel + names;
        assert base + (rel + [names[0]]) + names[1..] == base + rel + names;
        assert AllDone(fs, s, base, node.entries[i].node, rel + [node.entries[i].name], artifacts, marks);
        assert Done(fs, s, base, node.entries[i].node, rel + [node.entries[i].name], names[1..], artifacts, marks);
      }
    }
  }

  /** Nothing is reached beyond a file, a link or a hashed directory. */
  lemma LeafDone(fs: FileSystem, s: Settings, base: Path, node: Node, rel: Path, artifacts: Artifacts, marks: set<Path>)
    requires !node.Dir? || DirHashed(s, rel)
    requires EntryDone(s, rel, Some(node), artifacts) && LinkDone(fs, base + rel, Some(node), marks)
    ensures AllDone(fs, s, base, node, rel, artifacts, marks)
  {
    forall names ensures Done(fs, s, base, node, rel, names, artifacts, marks) {
      if names == [] {
        assert rel + [] == rel && base + rel + [] == base + rel;
      }
    }
  }

  /** The first `n` entries of a directory are done, and so are the links followed, all of which are below those. */
  ghost predicate EntriesDone(fs: FileSystem, s: Settings, base: Path, node: Node, rel: Path, n: nat,
                              artifacts: Artifacts, branches: seq<Branch>, marks: set<Path>)
    requires node.Dir? && n <= |node.entries|
  {
    && (forall k :: 0 <= k < n ==>
          AllDone(fs, s, base, node.entries[k].node, rel + [node.entries[k].name], artifacts, marks))
    && (forall j :: 0 <= j < |branches| ==>
          Followed(fs, s, base, node, rel, artifacts, branches[j], marks) && StandsBelow(node, n, branches[j]))
  }

  ghost predicate StandsBelow(node: Node, n: nat, b: Branch)
    requires node.Dir? && n <= |node.entries|
  {
    b.names != [] && exists k :: 0 <= k < n && b.names[0] == node.entries[k].name
  }

  lemma NextEntryDone(fs: FileSystem, s: Settings, base: Path, node: Node, rel: Path, n: nat, artifacts: Artifacts,
                      branches: seq<Branch>, marks: set<Path>, found: Artifacts, more: seq<Branch>, marks2: set<Path>)
    requires node.Dir? && WellFormed(node) && n < |node.entries| && !DirHashed(s, rel) && marks <= marks2
    requires EntriesDone(fs, s, base, node, rel, n, artifacts, branches, marks)
    requires Recorded(fs, s, base, node.entries[n].node, rel + [node.entries[n].name], found, more, marks2)
    requires forall key :: key in found ==> rel + [node.entries[n].name] <= key.names
    ensures EntriesDone(fs, s, base, node, rel, n + 1, artifacts + found,
                        branches + LiftAll(node.entries[n].name, more), marks2)
  {
    var name, all := node.entries[n].name, artifacts + found;
    forall k | 0 <= k < n
      ensures AllDone(fs, s, base, node.entries[k].node, rel + [node.entries[k].name], all, marks2)
    {
      OtherEntryKeeps(rel, node.entries[k].name, name, artifacts, found);
      DoneStays(fs, s, base, node.entries[k].node, rel + [node.entries[k].name], artifacts, all, marks, marks2);
    }
    DoneStays(fs, s, base, node.entries[n].node, rel + [name], found, all, marks2, marks2);
    forall j | 0 <= j < |branches|
      ensures Followed(fs, s, base, node, rel, all, branches[j], marks2) && StandsBelow(node, n + 1, branches[j])
    {
      EarlierBranchStays(fs, s, base, node, rel, n, artifacts, branches[j], marks, found, marks2);
    }
    forall j | 0 <= j < |more|
      ensures Followed(fs, s, base, node, rel, all, Lifted(name, more[j]), marks2)
      ensures StandsBelow(node, n + 1, Lifted(name, more[j]))
    {
      assert Followed(fs, s, base, node.entries[n].node, rel + [name], found, more[j], marks2);
      FollowedStays(fs, s, base, node.entries[n].node, rel + [name], rel + [name], found, all, more[j], marks2, marks2);
      LiftFollowed(fs, s, base, node, rel, n, all, more[j], marks2);
    }
  }

  lemma EarlierBranchStays(fs: FileSystem, s: Settings, base: Path, node: Node, rel: Path, n: nat, artifacts: Artifacts,
                           b: Branch, marks: set<Path>, found: Artifacts, marks2: set<Path>)
    requires node.Dir? && WellFormed(node) && n < |node.entries| && marks <= marks2
    requires Followed(fs, s, base, node, rel, artifacts, b, marks) && StandsBelow(node, n, b)
    requires forall key :: key in found ==> rel + [node.entries[n].name] <= key.names
    ensures Followed(fs, s, base, node, rel, artifacts + found, b, marks2) && StandsBelow(node, n + 1, b)
  {
    var k :| 0 <= k < n && b.names[0] == node.entries[k].name;
    OtherEntryKeeps(rel, b.names[0], node.entries[n].name, artifacts, found);
    assert rel + [b.names[0]] + b.names[1..] == rel + b.names;
    FollowedStays(fs, s, base, node, rel, rel + [b.names[0]], artifacts, artifacts + found, b, marks, marks2);
  }

  // ---- marks ----------------------------------------------------------------------------------

  /** The marks grow by the targets newly walked and by nothing else. */
  ghost predicate Grew(marks: set<Path>, walked: seq<Path>, marks2: set<Path>, walked2: seq<Path>, targets: set<Path>) {
    && walked <= walked2
    && marks2 == marks + Elements(walked2[|walked|..])
    && Elements(walked2[|walked|..]) <= targets
  }

  lemma GrewTwice(m1: set<Path>, w1: seq<Path>, m2: set<Path>, w2: seq<Path>, m3: set<Path>, w3: seq<Path>,
                  targets: set<Path>)
    requires Grew(m1, w1, m2, w2, targets) && Grew(m2, w2, m3, w3, targets)
    ensures Grew(m1, w1, m3, w3, targets)
  {
    assert w3[|w1|..] == w2[|w1|..] + w3[|w2|..];
    ElementsAppend(w2[|w1|..], w3[|w2|..]);
  }

  lemma Marking(marks: set<Path>, walked: seq<Path>, target: Path, targets: set<Path>)
    requires target in targets && target !in marks && Distinct(walked) && Elements(walked) <= marks
    ensures Grew(marks, walked, marks + {target}, walked + [target], targets)
    ensures Distinct(walked + [target]) && Elements(walked + [target]) <= marks + {target}
  {
    assert (walked + [target])[|walked|..] == [target];
    forall i | 0 <= i < |walked| ensures walked[i] != target {
      assert walked[i] in Elements(walked);
    }
  }
}
