// Scanning content for secrets through layers of encodings (attestation/secretscan/scanner.go,
// attestation/secretscan/findings.go, attestation/secretscan/envscan.go).
module SecretScan {
  import opened Options
  import opened Digests

  const MIN_SENSITIVE_VALUE_LENGTH: nat := 4
  const MAX_SCAN_RECURSION_DEPTH: nat := 3

  type Content = string

  /** A match of the secret detector. */
  datatype RawFinding = RawFinding(ruleId: string, line: int, secret: string, matched: string)

  /** What a finding is about. */
  datatype Subject = Subject(ruleId: string, line: int, secret: DigestSet)

  /** The value of a sensitive environment variable, or part of it, met in decoded content. */
  datatype DecodedMatch = DecodedMatch(variable: string, partial: bool, subject: Subject)

  datatype Finding = Finding(subject: Subject, encodingPath: seq<string>, locationApproximate: bool)

  datatype EncodingScanner = EncodingScanner(name: string, find: Content -> seq<string>, decode: string -> Option<Content>)

  /**
   * The libraries and settings of one scan. The key functions format the strings that findings are told apart by; nothing
   * keeps keys of different kinds from being equal.
   */
  datatype Scanner = Scanner(
    maxDecodeLayers: int,
    scanners: seq<EncodingScanner>,
    allowListed: Content -> bool,
    matchAllowListed: string -> bool,
    detect: Content -> seq<RawFinding>,
    normalizeRule: string -> string,
    digests: string -> Option<DigestSet>,
    envValues: Content -> seq<Subject>,
    decodedValues: (Content, string) -> seq<DecodedMatch>,
    trim: Content -> Content,
    detectorKey: string -> string,
    envKey: Subject -> string,
    decodedKey: (DecodedMatch, string) -> string)

  // ---- layers ---------------------------------------------------------------------------------

  predicate EndsWithPadding(candidate: string) {
    candidate != "" && candidate[|candidate| - 1] == '='
  }

  /** Whether a decoded candidate is worth a look, which depends on how deep it was found. */
  predicate LongEnough(decoded: Content, candidate: string, depth: nat) {
    |decoded| >= MIN_SENSITIVE_VALUE_LENGTH || (depth > 0 && |decoded| > 0) || EndsWithPadding(candidate)
  }

  /** Decoding a candidate found in the content uncovers the layer. */
  ghost predicate Uncovers(c: Scanner, content: Content, depth: nat, k: nat, candidate: string, layer: Content) {
    && k < |c.scanners| && candidate in c.scanners[k].find(content)
    && c.scanners[k].decode(candidate).Some?
    && LongEnough(c.scanners[k].decode(candidate).value, candidate, depth)
    && layer == c.trim(c.scanners[k].decode(candidate).value)
  }

  /** The content is taken apart at this depth. */
  ghost predicate Opens(c: Scanner, content: Content, depth: nat) {
    depth < c.maxDecodeLayers && depth <= MAX_SCAN_RECURSION_DEPTH && !c.allowListed(content)
  }

  /** From the content, through the encodings of the path, outermost first, to the layer. */
  ghost predicate Chain(c: Scanner, content: Content, depth: nat, path: seq<string>, layer: Content)
    decreases |path|
  {
    if path == [] then layer == content else
    && Opens(c, content, depth)
    && exists k, candidate, next ::
         Uncovers(c, content, depth, k, candidate, next) && LinksTo(c, k, path, depth) &&
         Chain(c, next, depth + 1, path[1..], layer)
  }

  predicate LinksTo(c: Scanner, k: nat, path: seq<string>, depth: nat) {
    k < |c.scanners| && path != [] && path[0] == c.scanners[k].name
  }

  /** A chain is never longer than the decode layers, nor than one more than the recursion limit. */
  lemma {:induction false} ChainIsBounded(c: Scanner, content: Content, depth: nat, path: seq<string>, layer: Content)
    requires Chain(c, content, depth, path, layer) && path != []
    ensures depth + |path| <= c.maxDecodeLayers && depth + |path| <= MAX_SCAN_RECURSION_DEPTH + 1
    decreases |path|
  {
    if |path| > 1 {
      var k, candidate, next :|
        Uncovers(c, content, depth, k, candidate, next) && LinksTo(c, k, path, depth) &&
        Chain(c, next, depth + 1, path[1..], layer);
      ChainIsBounded(c, next, depth + 1, path[1..], layer);
    }
  }

  // ---- where findings come from ---------------------------------------------------------------

  ghost predicate Reports(c: Scanner, raw: RawFinding, subject: Subject) {
    && !c.matchAllowListed(raw.matched) && c.digests(raw.secret).Some?
    && subject == Subject(c.normalizeRule(raw.ruleId), raw.line, c.digests(raw.secret).value)
  }

  /** The detector matched in the layer, which is `depth` layers down, and the match is told apart by `key`. */
  ghost predicate Detected(c: Scanner, layer: Content, depth: nat, subject: Subject, key: string) {
    && depth <= MAX_SCAN_RECURSION_DEPTH && !c.allowListed(layer)
    && (exists raw :: raw in c.detect(layer) && Reports(c, raw, subject) && key == c.detectorKey(raw.secret))
  }

  /** The layer holds the value of a sensitive environment variable, told apart by `key`. */
  ghost predicate HoldsValue(c: Scanner, layer: Content, encoding: string, subject: Subject, key: string) {
    exists m :: m in c.decodedValues(layer, encoding) && m.subject == subject && key == c.decodedKey(m, encoding)
  }

  /** What puts a finding with this path, relative to a scan at `depth`, on the layer, and gives it its key. */
  ghost predicate Origin(c: Scanner, layer: Content, depth: nat, path: seq<string>, subject: Subject, key: string) {
    || Detected(c, layer, depth + |path|, subject, key)
    || (depth == 0 && path == [] && !c.allowListed(layer) && subject in c.envValues(layer) && key == c.envKey(subject))
    || (path != [] && HoldsValue(c, layer, path[|path| - 1], subject, key))
  }

  ghost predicate Explained(c: Scanner, content: Content, depth: nat, f: Finding, key: string) {
    exists layer ::
      Chain(c, content, depth, f.encodingPath, layer) && Origin(c, layer, depth, f.encodingPath, f.subject, key)
  }

  /** Locations are approximate in decoded layers and nowhere else. */
  predicate Located(depth: nat, f: Finding) {
    f.locationApproximate <==> f.encodingPath != [] || depth > 0
  }

  /** Every finding is explained by something that has the key beside it. */
  ghost predicate AllExplained(c: Scanner, content: Content, depth: nat, fs: seq<Finding>, keys: seq<string>) {
    && |keys| == |fs|
    && (forall i :: 0 <= i < |fs| ==> Explained(c, content, depth, fs[i], keys[i]) && Located(depth, fs[i]))
  }

  // ---- nothing is lost ------------------------------------------------------------------------

  /** A secret whose digests cannot be computed has used up the key. */
  ghost predicate Spent(c: Scanner, key: string) {
    exists secret :: c.digests(secret).None? && c.detectorKey(secret) == key
  }

  /** The keys are distinct, were free before, and are all the keys taken since but for those that are spent. */
  ghost predicate Accounted(c: Scanner, before: set<string>, after: set<string>, keys: seq<string>) {
    && before <= after && Distinct(keys)
    && (forall k :: k in keys ==> k in after && k !in before)
    && (forall k :: k in after && k !in before ==> k in keys || Spent(c, k))
  }

  /** What the detector matches in the layer has its key taken, unless the match is on the allow-list. */
  ghost predicate Covered(c: Scanner, layer: Content, processed: set<string>) {
    forall raw :: raw in c.detect(layer) && !c.matchAllowListed(raw.matched) ==> c.detectorKey(raw.secret) in processed
  }

  /** The values met in the layer, decoded with the encoding, have their keys taken. */
  ghost predicate ValuesCovered(c: Scanner, layer: Content, encoding: string, processed: set<string>) {
    forall m :: m in c.decodedValues(layer, encoding) ==> c.decodedKey(m, encoding) in processed
  }

  /** The values met in the outermost layer have their keys taken. */
  ghost predicate EnvCovered(c: Scanner, content: Content, processed: set<string>) {
    forall v :: v in c.envValues(content) ==> c.envKey(v) in processed
  }

  ghost predicate Scanned(c: Scanner, layer: Content, depth: nat) {
    depth <= MAX_SCAN_RECURSION_DEPTH && !c.allowListed(layer)
  }

  /** Everything there is to find in a layer at the end of the path has been dealt with. */
  ghost predicate LayerDone(c: Scanner, layer: Content, depth: nat, path: seq<string>, processed: set<string>) {
    && (Scanned(c, layer, depth + |path|) ==> Covered(c, layer, processed))
    && (path != [] ==> ValuesCovered(c, layer, path[|path| - 1], processed))
  }

  /** No layer within reach is passed over. */
  ghost predicate Exhausted(c: Scanner, content: Content, depth: nat, processed: set<string>) {
    forall path, layer :: Chain(c, content, depth, path, layer) ==> LayerDone(c, layer, depth, path, processed)
  }

  lemma AccountedTwice(c: Scanner, s1: set<string>, s2: set<string>, s3: set<string>, k1: seq<string>, k2: seq<string>)
    requires Accounted(c, s1, s2, k1) && Accounted(c, s2, s3, k2)
    ensures Accounted(c, s1, s3, k1 + k2)
  {
    forall i, j | 0 <= i < j < |k1 + k2| ensures (k1 + k2)[i] != (k1 + k2)[j] {
      if i < |k1| <= j {
        assert k1[i] in k1 && k2[j - |k1|] in k2;
      }
    }
  }

  lemma AccountedOne(c: Scanner, s1: set<string>, s2: set<string>, keys: seq<string>, key: string)
    requires Accounted(c, s1, s2, keys) && key !in s2
    ensures Accounted(c, s1, s2 + {key}, keys + [key])
    ensures Spent(c, key) ==> Accounted(c, s1, s2 + {key}, keys)
  {
    assert key !in keys;
  }

  /** Findings of two scans one after the other. */
  lemma Joined(c: Scanner, content: Content, depth: nat, fs: seq<Finding>, keys: seq<string>, more: seq<Finding>,
               moreKeys: seq<string>, first: set<string>, middle: set<string>, last: set<string>)
    requires AllExplained(c, content, depth, fs, keys) && Accounted(c, first, middle, keys)
    requires AllExplained(c, content, depth, more, moreKeys) && Accounted(c, middle, last, moreKeys)
    ensures AllExplained(c, content, depth, fs + more, keys + moreKeys) && Accounted(c, first, last, keys + moreKeys)
  {
    ExplainedTwice(c, content, depth, fs, keys, more, moreKeys);
    AccountedTwice(c, first, middle, last, keys, moreKeys);
  }

  lemma ExplainedTwice(c: Scanner, content: Content, depth: nat, f1: seq<Finding>, k1: seq<string>, f2: seq<Finding>,
                       k2: seq<string>)
    requires AllExplained(c, content, depth, f1, k1) && AllExplained(c, content, depth, f2, k2)
    ensures AllExplained(c, content, depth, f1 + f2, k1 + k2)
  {
  }

  // ---- one layer further out ------------------------------------------------------------------

  function Prepended(name: string, f: Finding): Finding {
    f.(encodingPath := [name] + f.encodingPath, locationApproximate := true)
  }

  lemma ChainExtends(c: Scanner, content: Content, depth: nat, k: nat, candidate: string, next: Content,
                     path: seq<string>, layer: Content)
    requires Opens(c, content, depth) && Uncovers(c, content, depth, k, candidate, next)
    requires Chain(c, next, depth + 1, path, layer)
    ensures Chain(c, content, depth, [c.scanners[k].name] + path, layer)
  {
    var longer := [c.scanners[k].name] + path;
    assert longer[1..] == path;
    assert LinksTo(c, k, longer, depth);
  }

  lemma PrependExplains(c: Scanner, content: Content, depth: nat, k: nat, candidate: string, next: Content, f: Finding,
                        key: string)
    requires Opens(c, content, depth) && Uncovers(c, content, depth, k, candidate, next)
    requires Explained(c, next, depth + 1, f, key)
    ensures Explained(c, content, depth, Prepended(c.scanners[k].name, f), key)
    ensures Located(depth, Prepended(c.scanners[k].name, f))
  {
    var layer :|
      Chain(c, next, depth + 1, f.encodingPath, layer) && Origin(c, layer, depth + 1, f.encodingPath, f.subject, key);
    ChainExtends(c, content, depth, k, candidate, next, f.encodingPath, layer);
    assert Origin(c, layer, depth, [c.scanners[k].name] + f.encodingPath, f.subject, key);
  }

  lemma AllPrepended(c: Scanner, content: Content, depth: nat, k: nat, candidate: string, next: Content,
                     inner: seq<Finding>, keys: seq<string>, outer: seq<Finding>)
    requires Opens(c, content, depth) && Uncovers(c, content, depth, k, candidate, next)
    requires AllExplained(c, next, depth + 1, inner, keys)
    requires |outer| == |inner| && forall i :: 0 <= i < |inner| ==> outer[i] == Prepended(c.scanners[k].name, inner[i])
    ensures AllExplained(c, content, depth, outer, keys)
  {
    forall i | 0 <= i < |inner| ensures Explained(c, content, depth, outer[i], keys[i]) && Located(depth, outer[i]) {
      PrependExplains(c, content, depth, k, candidate, next, inner[i], keys[i]);
    }
  }

  /** An uncovered layer is done with when the values in it are covered and everything below it is exhausted. */
  ghost predicate Processed(c: Scanner, k: nat, next: Content, depth: nat, processed: set<string>)
    requires k < |c.scanners|
  {
    ValuesCovered(c, next, c.scanners[k].name, processed) && Exhausted(c, next, depth + 1, processed)
  }

  /** Once every uncovered layer is done with, and the content itself is covered, everything below it is exhausted. */
  lemma ExhaustedByLayers(c: Scanner, content: Content, depth: nat, processed: set<string>)
    requires Scanned(c, content, depth) ==> Covered(c, content, processed)
    requires Opens(c, content, depth) ==>
      forall k, candidate, next :: Uncovers(c, content, depth, k, candidate, next) ==>
        Processed(c, k, next, depth, processed)
    ensures Exhausted(c, content, depth, processed)
  {
    forall path, layer | Chain(c, content, depth, path, layer) ensures LayerDone(c, layer, depth, path, processed) {
      if path != [] {
        var k, candidate, next :|
          Uncovers(c, content, depth, k, candidate, next) && LinksTo(c, k, path, depth) &&
          Chain(c, next, depth + 1, path[1..], layer);
        assert Processed(c, k, next, depth, processed);
        assert LayerDone(c, layer, depth + 1, path[1..], processed);
        if |path| == 1 {
          assert layer == next;
        }
      }
    }
  }

  lemma ProcessedStays(c: Scanner, k: nat, next: Content, depth: nat, before: set<string>, after: set<string>)
    requires k < |c.scanners| && Processed(c, k, next, depth, before) && before <= after
    ensures Processed(c, k, next, depth, after)
  {
    ExhaustedStays(c, next, depth + 1, before, after);
  }

  lemma ExhaustedStays(c: Scanner, content: Content, depth: nat, before: set<string>, after: set<string>)
    requires Exhausted(c, content, depth, before) && before <= after
    ensures Exhausted(c, content, depth, after)
  {
    forall path, layer | Chain(c, content, depth, path, layer) ensures LayerDone(c, layer, depth, path, after) {
      assert LayerDone(c, layer, depth, path, before);
    }
  }

  // ---- the scan -------------------------------------------------------------------------------

  /** One scan, with the keys that all its layers share. */
  class Scan {
    const c: Scanner
    var processed: set<string>

    constructor (c: Scanner)
      ensures this.c == c && processed == {}
    {
      this.c, processed := c, {};
    }

    /** `processGitleaksFindings`. A match whose digests cannot be computed takes a key and leaves no finding. */
    method ProcessDetected(content: Content, depth: nat) returns (fs: seq<Finding>, ghost keys: seq<string>)
      requires Scanned(c, content, depth)
      modifies this
      ensures AllExplained(c, content, depth, fs, keys)
      ensures Accounted(c, old(processed), processed, keys)
      ensures Covered(c, content, processed)
    {
      fs, keys := [], [];
      var raws := c.detect(content);
      for i := 0 to |raws|
        invariant AllExplained(c, content, depth, fs, keys)
        invariant Accounted(c, old(processed), processed, keys)
        invariant forall j :: 0 <= j < i && !c.matchAllowListed(raws[j].matched) ==>
          c.detectorKey(raws[j].secret) in processed
      {
        if c.matchAllowListed(raws[i].matched) {
          continue;
        }
        var key := c.detectorKey(raws[i].secret);
        if key in processed {
          continue;
        }
        AccountedOne(c, old(processed), processed, keys, key);
        processed := processed + {key};
        var digests := c.digests(raws[i].secret);
        if digests.None? {
          continue;
        }
        var f := Finding(Subject(c.normalizeRule(raws[i].ruleId), raws[i].line, digests.value), [], depth > 0);
        assert raws[i] in raws && Reports(c, raws[i], f.subject);
        assert Chain(c, content, depth, [], content) && Origin(c, content, depth, [], f.subject, key);
        assert Explained(c, content, depth, f, key);
        fs, keys := fs + [f], keys + [key];
      }
    }

    /** The values of sensitive environment variables in the outermost layer. */
    method KeepNewValues(content: Content) returns (fs: seq<Finding>, ghost keys: seq<string>)
      requires !c.allowListed(content)
      modifies this
      ensures AllExplained(c, content, 0, fs, keys)
      ensures Accounted(c, old(processed), processed, keys)
      ensures EnvCovered(c, content, processed)
    {
      fs, keys := [], [];
      var envFindings := c.envValues(content);
      for i := 0 to |envFindings|
        invariant AllExplained(c, content, 0, fs, keys)
        invariant Accounted(c, old(processed), processed, keys)
        invariant forall j :: 0 <= j < i ==> c.envKey(envFindings[j]) in processed
      {
        var key := c.envKey(envFindings[i]);
        if key in processed {
          continue;
        }
        AccountedOne(c, old(processed), processed, keys, key);
        processed := processed + {key};
        var f := Finding(envFindings[i], [], false);
        assert Chain(c, content, 0, [], content) && Origin(c, content, 0, [], f.subject, key);
        assert Explained(c, content, 0, f, key);
        fs, keys := fs + [f], keys + [key];
      }
    }

    /** `checkDecodedContentForSensitiveValues`, after the matching itself. */
    method CheckDecoded(content: Content, depth: nat, k: nat, candidate: string, next: Content)
      returns (fs: seq<Finding>, ghost keys: seq<string>)
      requires Opens(c, content, depth) && Uncovers(c, content, depth, k, candidate, next)
      modifies this
      ensures AllExplained(c, content, depth, fs, keys)
      ensures Accounted(c, old(processed), processed, keys)
      ensures ValuesCovered(c, next, c.scanners[k].name, processed)
    {
      fs, keys := [], [];
      var name := c.scanners[k].name;
      var found := c.decodedValues(next, name);
      for i := 0 to |found|
        invariant AllExplained(c, content, depth, fs, keys)
        invariant Accounted(c, old(processed), processed, keys)
        invariant forall j :: 0 <= j < i ==> c.decodedKey(found[j], name) in processed
      {
        var key := c.decodedKey(found[i], name);
        if key in processed {
          continue;
        }
        AccountedOne(c, old(processed), processed, keys, key);
        processed := processed + {key};
        var f := Finding(found[i].subject, [name], true);
        assert found[i] in found && HoldsValue(c, next, name, f.subject, key);
        ValueIsExplained(c, content, depth, k, candidate, next, f, key);
        fs, keys := fs + [f], keys + [key];
      }
    }

    /** Writes the encoding in front of every path, in place. */
    static method PrependEncoding(name: string, fs: array<Finding>)
      modifies fs
      ensures forall i :: 0 <= i < fs.Length ==> fs[i] == Prepended(name, old(fs[i]))
    {
      for i := 0 to fs.Length
        invariant forall j :: 0 <= j < i ==> fs[j] == Prepended(name, old(fs[j]))
        invariant forall j :: i <= j < fs.Length ==> fs[j] == old(fs[j])
      {
        if |fs[i].encodingPath| > 0 {
          fs[i] := fs[i].(encodingPath := [name] + fs[i].encodingPath);
        } else {
          fs[i] := fs[i].(encodingPath := [name]);
        }
        fs[i] := fs[i].(locationApproximate := true);
      }
    }

    static method UpdatePaths(name: string, recursive: seq<Finding>) returns (updated: seq<Finding>)
      ensures |updated| == |recursive| && forall i :: 0 <= i < |recursive| ==> updated[i] == Prepended(name, recursive[i])
    {
      var a := new Finding[|recursive|](i requires 0 <= i < |recursive| => recursive[i]);
      PrependEncoding(name, a);
      updated := a[..];
    }

    /** `scanBytes`. `keys` records which key each finding took. */
    method ScanBytes(content: Content, depth: nat) returns (fs: seq<Finding>, ghost keys: seq<string>)
      modifies this
      ensures AllExplained(c, content, depth, fs, keys)
      ensures Accounted(c, old(processed), processed, keys)
      ensures Exhausted(c, content, depth, processed)
      ensures depth == 0 && !c.allowListed(content) ==> EnvCovered(c, content, processed)
      decreases MAX_SCAN_RECURSION_DEPTH + 1 - depth, 4
    {
      if depth > MAX_SCAN_RECURSION_DEPTH {
        return [], [];
      }
      if c.allowListed(content) {
        ExhaustedByLayers(c, content, depth, processed);
        return [], [];
      }
      fs, keys := ProcessDetected(content, depth);
      if depth == 0 {
        ghost var before := processed;
        var envFindings, envKeys := KeepNewValues(content);
        Joined(c, content, depth, fs, keys, envFindings, envKeys, old(processed), before, processed);
        fs, keys := fs + envFindings, keys + envKeys;
      }
      if depth < c.maxDecodeLayers {
        ghost var before := processed;
        var more, moreKeys := ScanLayers(content, depth);
        Joined(c, content, depth, fs, keys, more, moreKeys, old(processed), before, processed);
        fs, keys := fs + more, keys + moreKeys;
      }
      ExhaustedByLayers(c, content, depth, processed);
    }

    method ScanLayers(content: Content, depth: nat) returns (fs: seq<Finding>, ghost keys: seq<string>)
      requires Opens(c, content, depth)
      modifies this
      ensures AllExplained(c, content, depth, fs, keys)
      ensures Accounted(c, old(processed), processed, keys)
      ensures forall k, candidate, next :: Uncovers(c, content, depth, k, candidate, next) ==>
        Processed(c, k, next, depth, processed)
      decreases MAX_SCAN_RECURSION_DEPTH + 1 - depth, 3
    {
      fs, keys := [], [];
      for i := 0 to |c.scanners|
        invariant AllExplained(c, content, depth, fs, keys)
        invariant Accounted(c, old(processed), processed, keys)
        invariant forall k: nat, candidate, next :: k < i && Uncovers(c, content, depth, k, candidate, next) ==>
          Processed(c, k, next, depth, processed)
      {
        ghost var before := processed;
        var more, moreKeys := ScanCandidates(content, depth, i);
        forall k: nat, candidate, next | k < i && Uncovers(c, content, depth, k, candidate, next)
          ensures Processed(c, k, next, depth, processed)
        {
          ProcessedStays(c, k, next, depth, before, processed);
        }
        Joined(c, content, depth, fs, keys, more, moreKeys, old(processed), before, processed);
        fs, keys := fs + more, keys + moreKeys;
      }
    }

    method ScanCandidates(content: Content, depth: nat, k: nat) returns (fs: seq<Finding>, ghost keys: seq<string>)
      requires Opens(c, content, depth) && k < |c.scanners|
      modifies this
      ensures AllExplained(c, content, depth, fs, keys)
      ensures Accounted(c, old(processed), processed, keys)
      ensures forall candidate, next :: Uncovers(c, content, depth, k, candidate, next) ==>
        Processed(c, k, next, depth, processed)
      decreases MAX_SCAN_RECURSION_DEPTH + 1 - depth, 2
    {
      fs, keys := [], [];
      var candidates := c.scanners[k].find(content);
      for i := 0 to |candidates|
        invariant AllExplained(c, content, depth, fs, keys)
        invariant Accounted(c, old(processed), processed, keys)
        invariant forall j, next :: 0 <= j < i && Uncovers(c, content, depth, k, candidates[j], next) ==>
          Processed(c, k, next, depth, processed)
      {
        ghost var before := processed;
        var more, moreKeys := ScanCandidate(content, depth, k, candidates[i]);
        forall j, next | 0 <= j < i && Uncovers(c, content, depth, k, candidates[j], next)
          ensures Processed(c, k, next, depth, processed)
        {
          ProcessedStays(c, k, next, depth, before, processed);
        }
        Joined(c, content, depth, fs, keys, more, moreKeys, old(processed), before, processed);
        fs, keys := fs + more, keys + moreKeys;
      }
    }

    method ScanCandidate(content: Content, depth: nat, k: nat, candidate: string)
      returns (fs: seq<Finding>, ghost keys: seq<string>)
      requires Opens(c, content, depth) && k < |c.scanners| && candidate in c.scanners[k].find(content)
      modifies this
      ensures AllExplained(c, content, depth, fs, keys)
      ensures Accounted(c, old(processed), processed, keys)
      ensures forall next :: Uncovers(c, content, depth, k, candidate, next) ==>
        Processed(c, k, next, depth, processed)
      decreases MAX_SCAN_RECURSION_DEPTH + 1 - depth, 1
    {
      var decoded := c.scanners[k].decode(candidate);
      if decoded.None? || !LongEnough(decoded.value, candidate, depth) {
        return [], [];
      }
      var next := c.trim(decoded.value);
      fs, keys := CheckDecoded(content, depth, k, candidate, next);
      ghost var before := processed;
      var recursive, recursiveKeys := ScanUncovered(content, depth, k, candidate, next);
      Joined(c, content, depth, fs, keys, recursive, recursiveKeys, old(processed), before, processed);
      fs, keys := fs + recursive, keys + recursiveKeys;
    }

    /** Scans an uncovered layer and writes the encoding in front of what is found there. */
    method ScanUncovered(content: Content, depth: nat, k: nat, candidate: string, next: Content)
      returns (fs: seq<Finding>, ghost keys: seq<string>)
      requires Opens(c, content, depth) && Uncovers(c, content, depth, k, candidate, next)
      modifies this
      ensures AllExplained(c, content, depth, fs, keys)
      ensures Accounted(c, old(processed), processed, keys)
      ensures Exhausted(c, next, depth + 1, processed)
      decreases MAX_SCAN_RECURSION_DEPTH + 1 - depth, 0
    {
      var recursive;
      recursive, keys := ScanBytes(next, depth + 1);
      fs := UpdatePaths(c.scanners[k].name, recursive);
      AllPrepended(c, content, depth, k, candidate, next, recursive, keys, fs);
    }
  }

  lemma ValueIsExplained(c: Scanner, content: Content, depth: nat, k: nat, candidate: string, next: Content, f: Finding,
                         key: string)
    requires Opens(c, content, depth) && Uncovers(c, content, depth, k, candidate, next)
    requires f.encodingPath == [c.scanners[k].name] && f.locationApproximate
    requires HoldsValue(c, next, c.scanners[k].name, f.subject, key)
    ensures Explained(c, content, depth, f, key) && Located(depth, f)
  {
    ChainExtends(c, content, depth, k, candidate, next, [], next);
    assert [c.scanners[k].name] + [] == f.encodingPath;
    assert Origin(c, next, depth, f.encodingPath, f.subject, key);
  }

  // ---- a whole scan ---------------------------------------------------------------------------

  /** The path really leads to where the finding was made. */
  ghost predicate Provenance(c: Scanner, content: Content, f: Finding, key: string) {
    && Explained(c, content, 0, f, key)
    && (f.locationApproximate <==> f.encodingPath != [])
    && |f.encodingPath| <= MAX_SCAN_RECURSION_DEPTH + 1
    && (f.encodingPath != [] ==> |f.encodingPath| <= c.maxDecodeLayers)
  }

  /**
   * Every finding of a whole scan has a path that is a real chain of candidate, decode and trim steps from the content to
   * the layer it was made in, no longer than the decode layers or one more than the recursion limit.
   */
  lemma FindingsHaveProvenance(c: Scanner, content: Content, fs: seq<Finding>, keys: seq<string>)
    requires AllExplained(c, content, 0, fs, keys)
    ensures |keys| == |fs| && forall i :: 0 <= i < |fs| ==> Provenance(c, content, fs[i], keys[i])
  {
    forall i | 0 <= i < |fs| ensures Provenance(c, content, fs[i], keys[i]) {
      assert Explained(c, content, 0, fs[i], keys[i]) && Located(0, fs[i]);
      var layer :| Chain(c, content, 0, fs[i].encodingPath, layer);
      if fs[i].encodingPath != [] {
        ChainIsBounded(c, content, 0, fs[i].encodingPath, layer);
      }
    }
  }

  /** Nothing but the secret has the secret's key. */
  ghost predicate KeyIsOwn(c: Scanner, secret: string) {
    && (forall other :: c.detectorKey(other) == c.detectorKey(secret) ==> other == secret)
    && (forall v :: c.envKey(v) != c.detectorKey(secret))
    && (forall m, e :: c.decodedKey(m, e) != c.detectorKey(secret))
  }

  /** Some finding carries the digests of the secret. */
  ghost predicate Reported(fs: seq<Finding>, secret: DigestSet) {
    exists i :: 0 <= i < |fs| && fs[i].subject.secret == secret
  }

  /**
   * A whole scan reports every secret that the detector matches in any layer within reach, apart from matches on the
   * allow-list and secrets whose digests cannot be computed.
   */
  lemma EverySecretIsReported(c: Scanner, content: Content, processed: set<string>, fs: seq<Finding>, keys: seq<string>,
                              path: seq<string>, layer: Content, raw: RawFinding)
    requires AllExplained(c, content, 0, fs, keys) && Accounted(c, {}, processed, keys)
    requires Exhausted(c, content, 0, processed) && KeyIsOwn(c, raw.secret)
    requires Chain(c, content, 0, path, layer) && Scanned(c, layer, |path|)
    requires raw in c.detect(layer) && !c.matchAllowListed(raw.matched) && c.digests(raw.secret).Some?
    ensures Reported(fs, c.digests(raw.secret).value)
  {
    var key := c.detectorKey(raw.secret);
    assert LayerDone(c, layer, 0, path, processed);
    assert key in processed && !Spent(c, key);
    var i :| 0 <= i < |keys| && keys[i] == key;
    assert Explained(c, content, 0, fs[i], keys[i]);
    DetectorKeyCarriesSecret(c, content, fs[i], raw.secret);
  }

  lemma DetectorKeyCarriesSecret(c: Scanner, content: Content, f: Finding, secret: string)
    requires KeyIsOwn(c, secret) && Explained(c, content, 0, f, c.detectorKey(secret))
    ensures c.digests(secret) == Some(f.subject.secret)
  {
  }

  /** Every value met in decoded content has a finding under its key as well, unless a failed secret has used the key up. */
  lemma EveryValueIsReported(c: Scanner, content: Content, processed: set<string>, fs: seq<Finding>, keys: seq<string>,
                             path: seq<string>, layer: Content, m: DecodedMatch)
    requires AllExplained(c, content, 0, fs, keys) && Accounted(c, {}, processed, keys)
    requires Exhausted(c, content, 0, processed)
    requires path != [] && Chain(c, content, 0, path, layer) && m in c.decodedValues(layer, path[|path| - 1])
    requires !Spent(c, c.decodedKey(m, path[|path| - 1]))
    ensures exists i :: 0 <= i < |fs| && keys[i] == c.decodedKey(m, path[|path| - 1])
  {
    assert LayerDone(c, layer, 0, path, processed);
    var key := c.decodedKey(m, path[|path| - 1]);
    assert key in keys;
  }

  /** And so has every value met in the content itself, unless the content is on the allow-list. */
  lemma EveryEnvValueIsReported(c: Scanner, content: Content, processed: set<string>, fs: seq<Finding>,
                                keys: seq<string>, v: Subject)
    requires AllExplained(c, content, 0, fs, keys) && Accounted(c, {}, processed, keys)
    requires EnvCovered(c, content, processed) && v in c.envValues(content) && !Spent(c, c.envKey(v))
    ensures exists i :: 0 <= i < |fs| && keys[i] == c.envKey(v)
  {
    assert c.envKey(v) in keys;
  }
}
