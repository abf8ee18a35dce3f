// Recording artifacts (attestation/file/file.go): the walk itself, and what an entry stands for.
module FileRecorder {
  import opened Options
  import opened Digests
  import opened FileWalk

  method ShouldRecordArtifact(s: Settings, path: Key, artifact: DigestSet) returns (record: bool)
    ensures record <==> ShouldRecord(s, path, artifact)
    ensures s.processWasTraced && path !in s.openedFiles ==> !record
    ensures path in s.baseArtifacts && Agree(artifact, s.baseArtifacts[path]) ==> !record
    ensures !record ==>
      || (s.processWasTraced && path !in s.openedFiles)
      || (path in s.baseArtifacts && Agree(artifact, s.baseArtifacts[path]))
  {
    if path !in s.openedFiles && s.processWasTraced {
      return false;
    }
    if path in s.baseArtifacts {
      var same := Equal(artifact, s.baseArtifacts[path]);
      if same {
        return false;
      }
    }
    return true;
  }

  class Recorder {
    const fs: FileSystem
    const settings: Settings
    var visitedSymlinks: set<Path>

    /** The link targets walked so far, in order. */
    ghost var walked: seq<Path>

    /** Every target walked is marked, so none is ever walked again. */
    ghost predicate Valid()
      reads this
    {
      Distinct(walked) && Elements(walked) <= visitedSymlinks && WellFormed(fs.root)
    }

    constructor (fs: FileSystem, settings: Settings)
      requires WellFormed(fs.root)
      ensures Valid() && this.fs == fs && this.settings == settings && visitedSymlinks == {} && walked == []
    {
      this.fs, this.settings, visitedSymlinks, walked := fs, settings, {}, [];
    }

    /**
     * The recursion ends because the link targets not yet marked become fewer with every link that is followed.
     * `branches` records the links followed; their targets are the ones newly walked, in order.
     */
    method RecordArtifacts(base: Path) returns (artifacts: Artifacts, failed: bool, ghost branches: seq<Branch>)
      requires Valid()
      modifies this
      ensures Valid() && Grew(old(visitedSymlinks), old(walked), visitedSymlinks, walked, Targets(fs))
      ensures Lookup(fs.root, base).None? ==> failed && artifacts == map[]
      ensures Lookup(fs.root, base).Some? ==>
        AllJustified(fs, settings, base, Lookup(fs.root, base).value, [], artifacts)
      ensures !failed ==>
        && walked == old(walked) + TargetsOf(branches)
        && Recorded(fs, settings, base, Lookup(fs.root, base).value, [], artifacts, branches, visitedSymlinks)
      decreases Targets(fs) - visitedSymlinks, 1
    {
      var node := Lookup(fs.root, base);
      if node.None? {
        return map[], true, [];
      }
      LookupWellFormed(fs.root, base);
      artifacts, failed, branches := Walk(base, [], node.value);
    }

    /** What `filepath.Walk` and its callback do from one node downwards. */
    method Walk(base: Path, rel: Path, node: Node)
      returns (artifacts: Artifacts, failed: bool, ghost branches: seq<Branch>)
      requires Valid() && WellFormed(node)
      modifies this
      ensures Valid() && Grew(old(visitedSymlinks), old(walked), visitedSymlinks, walked, Targets(fs))
      ensures AllJustified(fs, settings, base, node, rel, artifacts)
      ensures !failed ==>
        && walked == old(walked) + TargetsOf(branches)
        && Recorded(fs, settings, base, node, rel, artifacts, branches, visitedSymlinks)
      decreases Targets(fs) - visitedSymlinks, 0, node, 1
    {
      branches := [];
      if node.File? {
        artifacts, failed := RecordFile(base, rel, node);
        if !failed {
          LeafDone(fs, settings, base, node, rel, artifacts, visitedSymlinks);
        }
      } else if node.Link? {
        artifacts, failed, branches := FollowLink(base, rel, node);
      } else {
        var dirHashMatch := MatchesDirHash(rel);
        if dirHashMatch {
          artifacts, failed := RecordDir(base, rel, node);
          if !failed {
            LeafDone(fs, settings, base, node, rel, artifacts, visitedSymlinks);
          }
        } else {
          artifacts, failed, branches := WalkEntries(base, rel, node);
        }
      }
    }

    method WalkEntries(base: Path, rel: Path, node: Node)
      returns (artifacts: Artifacts, failed: bool, ghost branches: seq<Branch>)
      requires Valid() && WellFormed(node) && node.Dir? && !DirHashed(settings, rel)
      modifies this
      ensures Valid() && Grew(old(visitedSymlinks), old(walked), visitedSymlinks, walked, Targets(fs))
      ensures AllJustified(fs, settings, base, node, rel, artifacts)
      ensures !failed ==>
        && walked == old(walked) + TargetsOf(branches)
        && Recorded(fs, settings, base, node, rel, artifacts, branches, visitedSymlinks)
      decreases Targets(fs) - visitedSymlinks, 0, node, 0
    {
      var entries := node.entries;
      artifacts, branches := map[], [];
      for i := 0 to |entries|
        invariant Valid() && Grew(old(visitedSymlinks), old(walked), visitedSymlinks, walked, Targets(fs))
        invariant AllJustified(fs, settings, base, node, rel, artifacts)
        invariant walked == old(walked) + TargetsOf(branches)
        invariant EntriesDone(fs, settings, base, node, rel, i, artifacts, branches, visitedSymlinks)
      {
        ghost var marks, before := visitedSymlinks, walked;
        var found, bad;
        ghost var more;
        found, bad, more := Walk(base, rel + [entries[i].name], entries[i].node);
        GrewTwice(old(visitedSymlinks), old(walked), marks, before, visitedSymlinks, walked, Targets(fs));
        MergeJustified(fs, settings, base, node, rel, i, artifacts, found);
        if bad {
          return artifacts + found, true, branches;
        }
        NextEntryDone(fs, settings, base, node, rel, i, artifacts, branches, marks, found, more, visitedSymlinks);
        TargetsOfNext(old(walked), before, walked, branches, entries[i].name, more);
        artifacts, branches := artifacts + found, branches + LiftAll(entries[i].name, more);
      }
      DirDone(fs, settings, base, node, rel, artifacts, visitedSymlinks);
      return artifacts, false, branches;
    }

    method RecordFile(base: Path, rel: Path, node: Node) returns (artifacts: Artifacts, failed: bool)
      requires node.File?
      ensures AllJustified(fs, settings, base, node, rel, artifacts)
      ensures failed <==> node.digest.None?
      ensures !failed ==> EntryDone(settings, rel, Some(node), artifacts)
    {
      if node.digest.None? {
        return map[], true;
      }
      var key := Key(rel, false);
      var record := ShouldRecordArtifact(settings, key, node.digest.value);
      if record {
        assert rel + [] == rel;
        assert DirectAt(settings, node, rel, [], key, node.digest.value);
        assert Derives(fs, settings, base, node, rel, key, node.digest.value, 0);
        return map[key := node.digest.value], false;
      }
      return map[], false;
    }

    method RecordDir(base: Path, rel: Path, node: Node) returns (artifacts: Artifacts, failed: bool)
      requires node.Dir? && DirHashed(settings, rel)
      ensures AllJustified(fs, settings, base, node, rel, artifacts)
      ensures failed <==> node.hash.None?
      ensures !failed ==> EntryDone(settings, rel, Some(node), artifacts)
    {
      if node.hash.None? {
        return map[], true;
      }
      var key := Key(rel, true);
      assert rel + [] == rel;
      assert DirectAt(settings, node, rel, [], key, node.hash.value);
      assert Derives(fs, settings, base, node, rel, key, node.hash.value, 0);
      return map[key := node.hash.value], false;
    }

    method MatchesDirHash(rel: Path) returns (dirHashMatch: bool)
      ensures dirHashMatch <==> DirHashed(settings, rel)
      ensures dirHashMatch <==> exists k :: 0 <= k < |settings.dirHashGlob| && settings.dirHashGlob[k](rel)
    {
      dirHashMatch := false;
      for i := 0 to |settings.dirHashGlob|
        invariant dirHashMatch <==> exists k :: 0 <= k < i && settings.dirHashGlob[k](rel)
      {
        if !dirHashMatch && settings.dirHashGlob[i](rel) {
          dirHashMatch := true;
        }
      }
    }

    /**
     * A broken link and a link to a marked target add nothing and change nothing. Any other target is marked, then
     * walked, and what is found there is recorded relative to here.
     */
    method FollowLink(base: Path, rel: Path, node: Node)
      returns (artifacts: Artifacts, failed: bool, ghost branches: seq<Branch>)
      requires Valid() && node.Link?
      modifies this
      ensures Valid() && Grew(old(visitedSymlinks), old(walked), visitedSymlinks, walked, Targets(fs))
      ensures AllJustified(fs, settings, base, node, rel, artifacts)
      ensures
        var linked := Eval(fs, base + rel);
        match linked
        case Broken => !failed && artifacts == map[] && visitedSymlinks == old(visitedSymlinks) && walked == old(walked)
        case Unresolvable => failed && visitedSymlinks == old(visitedSymlinks) && walked == old(walked)
        case To(target) =>
          if target in old(visitedSymlinks) then
            !failed && artifacts == map[] && visitedSymlinks == old(visitedSymlinks) && walked == old(walked)
          else
            && target in visitedSymlinks && old(walked) + [target] <= walked
            && (!failed ==> |branches| == 1 && branches[0].names == [] && branches[0].target == target)
      ensures !failed ==>
        && walked == old(walked) + TargetsOf(branches)
        && Recorded(fs, settings, base, node, rel, artifacts, branches, visitedSymlinks)
      decreases Targets(fs) - visitedSymlinks, 0, node, 0
    {
      branches := [];
      var linked := Eval(fs, base + rel);
      if linked.Broken? {
        LeafDone(fs, settings, base, node, rel, map[], visitedSymlinks);
        return map[], false, [];
      } else if linked.Unresolvable? {
        return map[], true, [];
      }
      if linked.target in visitedSymlinks {
        LeafDone(fs, settings, base, node, rel, map[], visitedSymlinks);
        return map[], false, [];
      }
      assert linked.target in Targets(fs);
      Marking(visitedSymlinks, walked, linked.target, Targets(fs));
      visitedSymlinks := visitedSymlinks + {linked.target};
      walked := walked + [linked.target];
      ghost var marks, before := visitedSymlinks, walked;
      var symlinkedArtifacts;
      ghost var below;
      symlinkedArtifacts, failed, below := RecordArtifacts(linked.target);
      GrewTwice(old(visitedSymlinks), old(walked), marks, before, visitedSymlinks, walked, Targets(fs));
      if failed {
        return map[], true, [];
      }
      artifacts := Rebase(base, rel, node, linked.target, symlinkedArtifacts);
      branches := [Branch([], linked.target, symlinkedArtifacts, below)];
      LinkIsFollowed(fs, settings, base, rel, node, linked.target, symlinkedArtifacts, below, artifacts, visitedSymlinks);
      TargetsOfOne(branches[0]);
    }

    /** The artifacts behind a link, recorded relative to the base the link was found under, in any map order. */
    method Rebase(base: Path, rel: Path, node: Node, ghost target: Path, found: Artifacts) returns (artifacts: Artifacts)
      requires node.Link? && Eval(fs, base + rel) == To(target) && Lookup(fs.root, target).Some?
      requires AllJustified(fs, settings, target, Lookup(fs.root, target).value, [], found)
      ensures AllJustified(fs, settings, base, node, rel, artifacts)
      ensures Rebased(settings, rel, found, artifacts)
    {
      artifacts := map[];
      var rest := found.Keys;
      while rest != {}
        invariant rest <= found.Keys
        invariant AllJustified(fs, settings, base, node, rel, artifacts)
        invariant RebasedBut(settings, rel, found, rest, artifacts)
        decreases rest
      {
        var inner :| inner in rest;
        rest := rest - {inner};
        var joined := Join(rel, inner);
        var record := ShouldRecordArtifact(settings, joined, found[inner]);
        if record {
          ThroughLink(fs, settings, base, node, rel, target, inner, found[inner]);
          JoinsApart(fs, settings, target, Lookup(fs.root, target).value, rel, found, inner);
          artifacts := artifacts[joined := found[inner]];
        }
      }
    }
  }

  lemma TargetsOfOne(b: Branch)
    ensures TargetsOf([b]) == [b.target] + TargetsOf(b.below)
  {
    assert [b][1..] == [];
    assert TargetsOf([b]) == TargetsIn(b) + [];
  }

  /** The walks of earlier entries come before those of the next one. */
  lemma TargetsOfNext(first: seq<Path>, before: seq<Path>, after: seq<Path>, branches: seq<Branch>, name: string,
                      more: seq<Branch>)
    requires before == first + TargetsOf(branches) && after == before + TargetsOf(more)
    ensures after == first + TargetsOf(branches + LiftAll(name, more))
  {
    LiftedTargets(name, more);
    TargetsAppend(branches, LiftAll(name, more));
  }

  lemma MergeJustified(fs: FileSystem, s: Settings, base: Path, node: Node, rel: Path, i: nat, artifacts: Artifacts,
                       found: Artifacts)
    requires node.Dir? && i < |node.entries| && WellFormed(node) && !DirHashed(s, rel)
    requires AllJustified(fs, s, base, node, rel, artifacts)
    requires AllJustified(fs, s, base, node.entries[i].node, rel + [node.entries[i].name], found)
    ensures AllJustified(fs, s, base, node, rel, artifacts + found)
    ensures forall key :: key in found ==> rel + [node.entries[i].name] <= key.names
  {
    forall key | key in found
      ensures Justified(fs, s, base, node, rel, key, found[key]) && rel + [node.entries[i].name] <= key.names
    {
      LiftsToParent(fs, s, base, node, rel, i, key, found[key]);
      JustifiedIsBelow(fs, s, base, node.entries[i].node, rel + [node.entries[i].name], key, found[key]);
    }
  }

  lemma LinkIsFollowed(fs: FileSystem, s: Settings, base: Path, rel: Path, node: Node, target: Path, found: Artifacts,
                       below: seq<Branch>, artifacts: Artifacts, marks: set<Path>)
    requires node.Link? && Eval(fs, base + rel) == To(target) && target in marks && Lookup(fs.root, target).Some?
    requires AllJustified(fs, s, target, Lookup(fs.root, target).value, [], found)
    requires Recorded(fs, s, target, Lookup(fs.root, target).value, [], found, below, marks)
    requires Rebased(s, rel, found, artifacts)
    ensures Recorded(fs, s, base, node, rel, artifacts, [Branch([], target, found, below)], marks)
  {
    LeafDone(fs, s, base, node, rel, artifacts, marks);
    assert rel + [] == rel && base + rel + [] == base + rel;
    forall i | 0 <= i < |below|
      ensures BranchDone(fs, s, target, Lookup(fs.root, target).value, [], below[i], marks)
      ensures Rebased(s, below[i].names, below[i].found, found)
    {
      assert Followed(fs, s, target, Lookup(fs.root, target).value, [], found, below[i], marks);
      assert [] + below[i].names == below[i].names;
    }
  }

  lemma ThroughLink(fs: FileSystem, s: Settings, base: Path, node: Node, rel: Path, target: Path, inner: Key,
                    digest: DigestSet)
    requires node.Link? && Eval(fs, base + rel) == To(target) && Lookup(fs.root, target).Some?
    requires Justified(fs, s, target, Lookup(fs.root, target).value, [], inner, digest)
    requires ShouldRecord(s, Join(rel, inner), digest)
    ensures Justified(fs, s, base, node, rel, Join(rel, inner), digest)
  {
    var n: nat :| Derives(fs, s, target, Lookup(fs.root, target).value, [], inner, digest, n);
    assert rel + [] == rel && base + rel + [] == base + rel;
    assert LinkLeads(fs, s, base, node, rel, [], inner, Join(rel, inner), digest);
    assert Derives(fs, s, base, node, rel, Join(rel, inner), digest, n + 1);
  }

  // ---- joining loses nothing ------------------------------------------------------------------

  lemma {:induction false} ReachThrough(s: Settings, node: Node, rel: Path, a: Path, b: Path)
    requires Reach(s, node, rel, a).Some?
    ensures Reach(s, node, rel, a + b) == Reach(s, Reach(s, node, rel, a).value, rel + a, b)
    decreases |a|
  {
    if a == [] {
      assert a + b == b && rel + a == rel;
    } else {
      var i := ChildFrom(node.entries, a[0]);
      ReachThrough(s, node.entries[i].node, rel + [a[0]], a[1..], b);
      assert (a + b)[1..] == a[1..] + b;
      assert rel + [a[0]] + a[1..] == rel + a;
    }
  }

  /** Joining drops the slash, so a directory with one was hashed where it stands. */
  lemma SlashIsDirect(fs: FileSystem, s: Settings, base: Path, node: Node, rel: Path, key: Key, digest: DigestSet, n: nat)
    requires Derives(fs, s, base, node, rel, key, digest, n) && key.slash
    ensures Direct(s, node, rel, key, digest)
  {
    if n > 0 {
      var names, inner := CrossesLink(fs, s, base, node, rel, key, digest, n);
    }
  }

  /** A hashed directory and anything else never end up under the same names. */
  lemma SlashStandsAlone(fs: FileSystem, s: Settings, base: Path, node: Node, rel: Path, dir: Key, d1: DigestSet,
                         other: Key, d2: DigestSet)
    requires Justified(fs, s, base, node, rel, dir, d1) && Justified(fs, s, base, node, rel, other, d2)
    requires dir.slash && dir.names == other.names
    ensures other.slash
  {
    var n: nat :| Derives(fs, s, base, node, rel, dir, d1, n);
    SlashIsDirect(fs, s, base, node, rel, dir, d1, n);
    var names :| DirectAt(s, node, rel, names, dir, d1);
    var m: nat :| Derives(fs, s, base, node, rel, other, d2, m);
    if m == 0 {
      var names2 :| DirectAt(s, node, rel, names2, other, d2);
      SameSuffix(rel, names, names2);
    } else {
      var names2, inner := CrossesLink(fs, s, base, node, rel, other, d2, m);
      SameSuffix(rel, names, names2 + inner.names);
      ReachThrough(s, node, rel, names2, inner.names);
    }
  }

  lemma SameSuffix(rel: Path, a: Path, b: Path)
    requires rel + a == rel + b
    ensures a == b
  {
    assert (rel + a)[|rel|..] == a && (rel + b)[|rel|..] == b;
  }

  /** So different entries behind a link stay different when they are joined to where the link stands. */
  lemma JoinsApart(fs: FileSystem, s: Settings, base: Path, node: Node, rel: Path, found: Artifacts, key: Key)
    requires AllJustified(fs, s, base, node, [], found) && key in found
    ensures forall other :: other in found && other != key ==> Join(rel, other) != Join(rel, key)
  {
    forall other | other in found && other != key ensures Join(rel, other) != Join(rel, key) {
      if rel + other.names == rel + key.names {
        SameSuffix(rel, other.names, key.names);
        if key.slash {
          SlashStandsAlone(fs, s, base, node, [], key, found[key], other, found[other]);
        } else if other.slash {
          SlashStandsAlone(fs, s, base, node, [], other, found[other], key, found[key]);
        }
      }
    }
  }

  // ---- what an entry stands for ---------------------------------------------------------------

  lemma DerivedShouldBeRecorded(fs: FileSystem, s: Settings, base: Path, node: Node, rel: Path, key: Key,
                                digest: DigestSet, n: nat)
    requires Derives(fs, s, base, node, rel, key, digest, n)
    ensures ShouldRecord(s, key, digest) || (key.slash && n == 0 && DirHashed(s, key.names))
  {
    if n == 0 {
      var names :| DirectAt(s, node, rel, names, key, digest);
    } else {
      var names, inner := CrossesLink(fs, s, base, node, rel, key, digest, n);
    }
  }

  /** Every entry except that of a hashed directory should be recorded at the path it is recorded under. */
  lemma EntriesShouldBeRecorded(fs: FileSystem, s: Settings, base: Path, node: Node, rel: Path, artifacts: Artifacts)
    requires AllJustified(fs, s, base, node, rel, artifacts)
    ensures forall key :: key in artifacts ==>
      ShouldRecord(s, key, artifacts[key]) || (key.slash && DirHashed(s, key.names))
  {
    forall key | key in artifacts ensures ShouldRecord(s, key, artifacts[key]) || (key.slash && DirHashed(s, key.names)) {
      assert Justified(fs, s, base, node, rel, key, artifacts[key]);
      var n: nat :| Derives(fs, s, base, node, rel, key, artifacts[key], n);
      DerivedShouldBeRecorded(fs, s, base, node, rel, key, artifacts[key], n);
    }
  }

  /** Where the walk has followed a link, it has marked whatever the links reached from there lead to. */
  lemma {:induction false} WalkedTargetsAreClosed(fs: FileSystem, s: Settings, base: Path, node: Node, rel: Path,
                                                  branches: seq<Branch>, marks: set<Path>, target: Path)
    requires forall i :: 0 <= i < |branches| ==> BranchDone(fs, s, base, node, rel, branches[i], marks)
    requires target in TargetsOf(branches)
    ensures Lookup(fs.root, target).Some?
    ensures exists found :: AllDone(fs, s, target, Lookup(fs.root, target).value, [], found, marks)
    decreases branches
  {
    var b := branches[0];
    if target == b.target {
      assert BranchDone(fs, s, base, node, rel, b, marks);
    } else if target in TargetsOf(b.below) {
      WalkedTargetsAreClosed(fs, s, b.target, Lookup(fs.root, b.target).value, [], b.below, marks, target);
    } else {
      WalkedTargetsAreClosed(fs, s, base, node, rel, branches[1..], marks, target);
    }
  }

  /** A directory that a glob matches, reached without a link, is recorded by its hash, under its path with a slash. */
  lemma HashedDirectoryIsRecorded(fs: FileSystem, s: Settings, base: Path, node: Node, rel: Path, names: Path,
                                  artifacts: Artifacts, marks: set<Path>, k: nat, entries: seq<Entry>,
                                  hash: Option<DigestSet>)
    requires AllDone(fs, s, base, node, rel, artifacts, marks)
    requires Reach(s, node, rel, names) == Some(Dir(entries, hash))
    requires k < |s.dirHashGlob| && s.dirHashGlob[k](rel + names)
    ensures hash.Some? && Key(rel + names, true) in artifacts && artifacts[Key(rel + names, true)] == hash.value
  {
    assert Done(fs, s, base, node, rel, names, artifacts, marks);
  }

  /** A link reached without another one can be resolved, and its target, if it has one, has been walked or will not be. */
  lemma LinkIsMarked(fs: FileSystem, s: Settings, base: Path, node: Node, rel: Path, names: Path, artifacts: Artifacts,
                     marks: set<Path>, target: Path)
    requires AllDone(fs, s, base, node, rel, artifacts, marks) && Reach(s, node, rel, names) == Some(Link)
    ensures base + rel + names in fs.links && fs.links[base + rel + names] != Unresolvable
    ensures fs.links[base + rel + names] == To(target) ==> target in marks
  {
    assert Done(fs, s, base, node, rel, names, artifacts, marks);
  }

  // ---- files behind links ---------------------------------------------------------------------

  /** Nothing is reached beyond a link. */
  lemma LinkStops(s: Settings, node: Node, rel: Path, names: Path, more: Path)
    requires Reach(s, node, rel, names) == Some(Link)
    ensures Reach(s, node, rel, names + more) == if more == [] then Some(Link) else None
  {
    ReachThrough(s, node, rel, names, more);
  }

  lemma SameLink(s: Settings, node: Node, rel: Path, a: Path, x: Path, b: Path, y: Path)
    requires Reach(s, node, rel, a) == Some(Link) && Reach(s, node, rel, b) == Some(Link) && a + x == b + y
    ensures a == b && x == y
  {
    if |a| <= |b| {
      assert a + (a + x)[|a|..|b|] == b;
      LinkStops(s, node, rel, a, (a + x)[|a|..|b|]);
    } else {
      assert b + (b + y)[|b|..|a|] == a;
      LinkStops(s, node, rel, b, (b + y)[|b|..|a|]);
    }
    assert (a + x)[|a|..] == x && (b + y)[|b|..] == y;
  }

  /** A file has exactly one derivation: itself. */
  lemma FileDerives(fs: FileSystem, s: Settings, base: Path, node: Node, rel: Path, names: Path, file: DigestSet, key: Key,
                    digest: DigestSet, n: nat)
    requires Reach(s, node, rel, names) == Some(File(Some(file))) && key.names == rel + names
    requires Derives(fs, s, base, node, rel, key, digest, n)
    ensures !key.slash && digest == file && ShouldRecord(s, key, file)
  {
    if n == 0 {
      var names2 :| DirectAt(s, node, rel, names2, key, digest);
      SameSuffix(rel, names, names2);
    } else {
      var names2, inner := CrossesLink(fs, s, base, node, rel, key, digest, n);
      SameSuffix(rel, names, names2 + inner.names);
      LinkStops(s, node, rel, names2, inner.names);
    }
  }

  /** The path from the first link's place to the file, when the links are crossed one after the other. */
  function Along(chain: seq<Branch>, names: Path): Path {
    if chain == [] then names else chain[0].names + Along(chain[1..], names)
  }

  /** Crossing the links of the chain one after the other, each from the target of the one before, leads to the file. */
  ghost predicate Leads(fs: FileSystem, s: Settings, base: Path, node: Node, rel: Path, chain: seq<Branch>, names: Path,
                        file: DigestSet)
    decreases |chain|
  {
    if chain == [] then Reach(s, node, rel, names) == Some(File(Some(file))) else
    var b := chain[0];
    && Reach(s, node, rel, b.names) == Some(Link) && Eval(fs, base + rel + b.names) == To(b.target)
    && Lookup(fs.root, b.target).Some?
    && Leads(fs, s, b.target, Lookup(fs.root, b.target).value, [], chain[1..], names, file)
  }

  /** The file should be recorded under its path from where the walk began, and from the target of each link. */
  ghost predicate ShouldRecordAlong(s: Settings, rel: Path, chain: seq<Branch>, names: Path, file: DigestSet)
    decreases |chain|
  {
    && ShouldRecord(s, Key(rel + Along(chain, names), false), file)
    && (chain != [] ==> ShouldRecordAlong(s, [], chain[1..], names, file))
  }

  /** Each link of the chain was followed from the target of the one before. */
  predicate Nested(chain: seq<Branch>) {
    forall i :: 0 <= i < |chain| - 1 ==> chain[i + 1] in chain[i].below
  }

  /** The walk has dealt with everything below the node, and has followed the first link of the chain if there is one. */
  ghost predicate Begun(fs: FileSystem, s: Settings, base: Path, node: Node, rel: Path, artifacts: Artifacts,
                        chain: seq<Branch>, marks: set<Path>)
  {
    if chain == [] then AllDone(fs, s, base, node, rel, artifacts, marks)
    else Followed(fs, s, base, node, rel, artifacts, chain[0], marks)
  }

  lemma BegunBehind(fs: FileSystem, s: Settings, base: Path, node: Node, rel: Path, artifacts: Artifacts,
                    chain: seq<Branch>, marks: set<Path>)
    requires chain != [] && Nested(chain) && Begun(fs, s, base, node, rel, artifacts, chain, marks)
    ensures
      var b := chain[0];
      && Lookup(fs.root, b.target).Some?
      && Begun(fs, s, b.target, Lookup(fs.root, b.target).value, [], b.found, chain[1..], marks)
  {
    var b := chain[0];
    if |chain| > 1 {
      assert chain[0 + 1] in chain[0].below;
      var i :| 0 <= i < |b.below| && b.below[i] == chain[1];
      assert [] + chain[1].names == chain[1].names;
    }
  }

  /**
   * A file behind any number of links that were followed, each from the target of the one before, is recorded if and only
   * if it should be recorded under its path from the target of every one of them and under the path it ends up with.
   */
  lemma FileBehindLinksIff(fs: FileSystem, s: Settings, base: Path, node: Node, rel: Path, artifacts: Artifacts,
                           chain: seq<Branch>, marks: set<Path>, names: Path, file: DigestSet)
    requires AllJustified(fs, s, base, node, rel, artifacts)
    requires Nested(chain) && Begun(fs, s, base, node, rel, artifacts, chain, marks)
    requires Leads(fs, s, base, node, rel, chain, names, file)
    ensures
      var key := Key(rel + Along(chain, names), false);
      && (key in artifacts <==> ShouldRecordAlong(s, rel, chain, names, file))
      && (key in artifacts ==> artifacts[key] == file)
  {
    var key := Key(rel + Along(chain, names), false);
    if key in artifacts {
      assert Justified(fs, s, base, node, rel, key, artifacts[key]);
      var n: nat :| Derives(fs, s, base, node, rel, key, artifacts[key], n);
      AlongLinksDerives(fs, s, base, node, rel, chain, names, file, key, artifacts[key], n);
    }
    if ShouldRecordAlong(s, rel, chain, names, file) {
      AlongLinksRecorded(fs, s, base, node, rel, artifacts, chain, marks, names, file);
    }
  }

  lemma {:induction false} AlongLinksRecorded(fs: FileSystem, s: Settings, base: Path, node: Node, rel: Path,
                                              artifacts: Artifacts, chain: seq<Branch>, marks: set<Path>, names: Path,
                                              file: DigestSet)
    requires Nested(chain) && Begun(fs, s, base, node, rel, artifacts, chain, marks)
    requires Leads(fs, s, base, node, rel, chain, names, file) && ShouldRecordAlong(s, rel, chain, names, file)
    ensures Holds(artifacts, Key(rel + Along(chain, names), false), file)
    decreases |chain|
  {
    if chain == [] {
      assert Done(fs, s, base, node, rel, names, artifacts, marks);
    } else {
      var b, inner := chain[0], Key(Along(chain[1..], names), false);
      BegunBehind(fs, s, base, node, rel, artifacts, chain, marks);
      AlongLinksRecorded(fs, s, b.target, Lookup(fs.root, b.target).value, [], b.found, chain[1..], marks, names, file);
      assert [] + inner.names == inner.names;
      JoinedAlong(rel, chain, names);
      assert Rebased(s, rel + b.names, b.found, artifacts);
    }
  }

  lemma JoinedAlong(rel: Path, chain: seq<Branch>, names: Path)
    requires chain != []
    ensures Join(rel + chain[0].names, Key(Along(chain[1..], names), false)) == Key(rel + Along(chain, names), false)
  {
    var rest := Along(chain[1..], names);
    assert rel + chain[0].names + rest == rel + (chain[0].names + rest);
  }

  /** The case of one link. */
  lemma FileBehindLinkIff(fs: FileSystem, s: Settings, base: Path, node: Node, rel: Path, artifacts: Artifacts, b: Branch,
                          marks: set<Path>, names: Path, file: DigestSet)
    requires AllJustified(fs, s, base, node, rel, artifacts)
    requires Followed(fs, s, base, node, rel, artifacts, b, marks)
    requires Reach(s, Lookup(fs.root, b.target).value, [], names) == Some(File(Some(file)))
    ensures
      var key := Key(rel + b.names + names, false);
      && (key in artifacts <==> ShouldRecord(s, Key(names, false), file) && ShouldRecord(s, key, file))
      && (key in artifacts ==> artifacts[key] == file)
  {
    var chain := [b];
    assert chain[1..] == [] && Along(chain[1..], names) == names && Along(chain, names) == b.names + names;
    assert rel + (b.names + names) == rel + b.names + names && [] + names == names;
    assert Leads(fs, s, b.target, Lookup(fs.root, b.target).value, [], chain[1..], names, file);
    FileBehindLinksIff(fs, s, base, node, rel, artifacts, chain, marks, names, file);
    assert ShouldRecordAlong(s, [], chain[1..], names, file) <==> ShouldRecord(s, Key(names, false), file);
  }

  lemma {:induction false} AlongLinksDerives(fs: FileSystem, s: Settings, base: Path, node: Node, rel: Path,
                                             chain: seq<Branch>, names: Path, file: DigestSet, key: Key,
                                             digest: DigestSet, n: nat)
    requires Leads(fs, s, base, node, rel, chain, names, file)
    requires key.names == rel + Along(chain, names) && Derives(fs, s, base, node, rel, key, digest, n)
    ensures !key.slash && digest == file && ShouldRecordAlong(s, rel, chain, names, file)
    decreases |chain|
  {
    if chain == [] {
      FileDerives(fs, s, base, node, rel, names, file, key, digest, n);
    } else {
      var b, rest := chain[0], Along(chain[1..], names);
      assert rel + (b.names + rest) == rel + b.names + rest;
      if n == 0 {
        NotDirectBehindLink(s, node, rel, b.names, rest, key, digest);
      } else {
        var names2, inner := CrossesLink(fs, s, base, node, rel, key, digest, n);
        SameCrossing(s, node, rel, b.names, rest, names2, inner.names);
        assert inner.names == [] + rest;
        AlongLinksDerives(fs, s, b.target, Lookup(fs.root, b.target).value, [], chain[1..], names, file, inner, digest,
                          n - 1);
      }
    }
  }

  lemma NotDirectBehindLink(s: Settings, node: Node, rel: Path, at: Path, names: Path, key: Key, digest: DigestSet)
    requires Reach(s, node, rel, at) == Some(Link) && key.names == rel + at + names
    ensures !Direct(s, node, rel, key, digest)
  {
    LinkStops(s, node, rel, at, names);
    forall names2 ensures !DirectAt(s, node, rel, names2, key, digest) {
      if rel + names2 == key.names {
        assert rel + at + names == rel + (at + names);
        SameSuffix(rel, at + names, names2);
      }
    }
  }

  lemma SameCrossing(s: Settings, node: Node, rel: Path, a: Path, x: Path, b: Path, y: Path)
    requires Reach(s, node, rel, a) == Some(Link) && Reach(s, node, rel, b) == Some(Link) && rel + a + x == rel + b + y
    ensures a == b && x == y
  {
    assert rel + a + x == rel + (a + x) && rel + b + y == rel + (b + y);
    SameSuffix(rel, a + x, b + y);
    SameLink(s, node, rel, a, x, b, y);
  }

  /** A directory "dir" holding nothing but a link "l" to a file "f" beside it, in a run that opened "l". */
  function LinkedFile(digest: DigestSet): FileSystem {
    FileSystem(
      Dir([Entry("dir", Dir([Entry("l", Link)], None)), Entry("f", File(Some(digest)))], None),
      map[["dir", "l"] := To(["f"])])
  }

  const OPENED_LINK: Settings := Settings(map[], true, {Key(["l"], false)}, [])

  /**
   * There the file should be recorded under "l", which is where it is opened, and yet nothing is ever recorded: from its
   * own path the file has an empty name, and that was not opened.
   */
  lemma LinkedFileIsLost(digest: DigestSet, artifacts: Artifacts)
    requires
      var fs := LinkedFile(digest);
      Lookup(fs.root, ["dir"]).Some?
        && AllJustified(fs, OPENED_LINK, ["dir"], Lookup(fs.root, ["dir"]).value, [], artifacts)
    ensures ShouldRecord(OPENED_LINK, Key(["l"], false), digest)
    ensures artifacts == map[]
  {
    var fs := LinkedFile(digest);
    var node := Lookup(fs.root, ["dir"]).value;
    forall key | key in artifacts ensures false {
      var n: nat :| Derives(fs, OPENED_LINK, ["dir"], node, [], key, artifacts[key], n);
      NothingDerives(digest, key, artifacts[key], n);
    }
  }

  lemma NothingDerives(digest: DigestSet, key: Key, d: DigestSet, n: nat)
    ensures Lookup(LinkedFile(digest).root, ["dir"]) == Some(Dir([Entry("l", Link)], None))
    ensures !Derives(LinkedFile(digest), OPENED_LINK, ["dir"], Dir([Entry("l", Link)], None), [], key, d, n)
  {
    var fs, node := LinkedFile(digest), Dir([Entry("l", Link)], None);
    assert ["dir"][1..] == [];
    OnlyTheLink();
    if n == 0 {
      forall names ensures !DirectAt(OPENED_LINK, node, [], names, key, d) {
        assert Reach(OPENED_LINK, node, [], names).None? || names == [] || names == ["l"];
      }
    } else if Derives(fs, OPENED_LINK, ["dir"], node, [], key, d, n) {
      var names, inner := CrossesLink(fs, OPENED_LINK, ["dir"], node, [], key, d, n);
      assert names == ["l"] && ["dir"] + [] + names == ["dir", "l"];
      OnlyTheFile(digest, inner, d, n - 1);
    }
  }

  /** Below "dir" there are the directory itself and the link. */
  lemma OnlyTheLink()
    ensures forall names ::
      Reach(OPENED_LINK, Dir([Entry("l", Link)], None), [], names)
        == if names == [] then Some(Dir([Entry("l", Link)], None)) else if names == ["l"] then Some(Link) else None
  {
    var node := Dir([Entry("l", Link)], None);
    forall names
      ensures Reach(OPENED_LINK, node, [], names)
        == if names == [] then Some(node) else if names == ["l"] then Some(Link) else None
    {
      if names != [] {
        assert node.entries[1..] == [];
        assert Child(node.entries, names[0]) == if names[0] == "l" then Some(Link) else None;
        assert names == [names[0]] + names[1..];
      }
    }
  }

  lemma OnlyTheFile(digest: DigestSet, inner: Key, d: DigestSet, n: nat)
    requires inner.names == []
    ensures Lookup(LinkedFile(digest).root, ["f"]) == Some(File(Some(digest)))
    ensures !Derives(LinkedFile(digest), OPENED_LINK, ["f"], File(Some(digest)), [], inner, d, n)
  {
    var entries := LinkedFile(digest).root.entries;
    assert ["f"][1..] == [] && ["f"][0] == "f" && |"dir"| == 3 && |"f"| == 1;
    assert entries[1..] == [Entry("f", File(Some(digest)))];
    assert Child(entries, "f") == Some(File(Some(digest)));
    assert Key([], false) != Key(["l"], false);
    if Derives(LinkedFile(digest), OPENED_LINK, ["f"], File(Some(digest)), [], inner, d, n) {
      FileDerives(LinkedFile(digest), OPENED_LINK, ["f"], File(Some(digest)), [], [], digest, inner, d, n);
    }
  }
}
