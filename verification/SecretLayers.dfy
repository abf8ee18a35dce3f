// What a scan for secrets finds and where, layer by layer (attestation/secretscan/scanner.go).
module SecretLayers {
  import opened Options
  import opened SecretScan

  /** One layer after another: which scanner found which candidate in each. */
  datatype Peeling = Peeling(layers: seq<Content>, scanners: seq<nat>, candidates: seq<string>)

  /**
   * Layer `i`, which is `depth` further down, may be taken apart; the candidate is found in it and decodes to something
   * that is long enough, or was padded; and trimmed, that is the next layer.
   */
  ghost predicate PeelsAt(c: Scanner, depth: nat, path: seq<string>, p: Peeling, i: nat)
    requires i < |path| == |p.scanners| == |p.candidates| && |p.layers| == |path| + 1
  {
    && depth + i < c.maxDecodeLayers && depth + i <= 3 && !c.allowListed(p.layers[i])
    && p.scanners[i] < |c.scanners| && path[i] == c.scanners[p.scanners[i]].name
    && p.candidates[i] in c.scanners[p.scanners[i]].find(p.layers[i])
    && var decoded := c.scanners[p.scanners[i]].decode(p.candidates[i]);
       && decoded.Some? && p.layers[i + 1] == c.trim(decoded.value)
       && (|decoded.value| >= 4 || (depth + i > 0 && decoded.value != "") || IsPadded(p.candidates[i]))
  }

  predicate IsPadded(candidate: string) {
    |candidate| > 0 && candidate[|candidate| - 1] == '='
  }

  /** The path leads from the content through all these layers to the last one. */
  ghost predicate Peels(c: Scanner, content: Content, depth: nat, path: seq<string>, p: Peeling, layer: Content) {
    && |path| == |p.scanners| == |p.candidates| && |p.layers| == |path| + 1
    && p.layers[0] == content && p.layers[|path|] == layer
    && (forall i :: 0 <= i < |path| ==> PeelsAt(c, depth, path, p, i))
  }

  function Rest(p: Peeling): Peeling
    requires p.layers != [] && p.scanners != [] && p.candidates != []
  {
    Peeling(p.layers[1..], p.scanners[1..], p.candidates[1..])
  }

  lemma RestPeels(c: Scanner, content: Content, depth: nat, path: seq<string>, p: Peeling, layer: Content)
    requires Peels(c, content, depth, path, p, layer) && path != []
    ensures Peels(c, p.layers[1], depth + 1, path[1..], Rest(p), layer)
  {
    var rest, below, further := path[1..], Rest(p), depth + 1;
    forall i: nat | i < |rest| ensures PeelsAt(c, further, rest, below, i) {
      assert PeelsAt(c, depth, path, p, i + 1);
    }
  }

  /** Layers that can be taken off one after the other make a chain. */
  lemma {:induction false} PeelingIsChain(c: Scanner, content: Content, depth: nat, path: seq<string>, p: Peeling,
                                          layer: Content)
    requires Peels(c, content, depth, path, p, layer)
    ensures Chain(c, content, depth, path, layer)
    decreases |path|
  {
    if path != [] {
      assert PeelsAt(c, depth, path, p, 0);
      RestPeels(c, content, depth, path, p, layer);
      PeelingIsChain(c, p.layers[1], depth + 1, path[1..], Rest(p), layer);
      assert Uncovers(c, content, depth, p.scanners[0], p.candidates[0], p.layers[1]);
      assert LinksTo(c, p.scanners[0], path, depth);
    }
  }

  /** And every chain is made of such layers. */
  lemma {:induction false} ChainPeels(c: Scanner, content: Content, depth: nat, path: seq<string>, layer: Content)
    returns (p: Peeling)
    requires Chain(c, content, depth, path, layer)
    ensures Peels(c, content, depth, path, p, layer)
    decreases |path|
  {
    if path == [] {
      p := Peeling([content], [], []);
    } else {
      var k, candidate, next :|
        Uncovers(c, content, depth, k, candidate, next) && LinksTo(c, k, path, depth) &&
        Chain(c, next, depth + 1, path[1..], layer);
      var rest := ChainPeels(c, next, depth + 1, path[1..], layer);
      p := Peeling([content] + rest.layers, [k] + rest.scanners, [candidate] + rest.candidates);
      OneLayerMore(c, content, depth, path, rest, layer, k, candidate, next);
    }
  }

  lemma OneLayerMore(c: Scanner, content: Content, depth: nat, path: seq<string>, rest: Peeling, layer: Content, k: nat,
                     candidate: string, next: Content)
    requires path != [] && Peels(c, next, depth + 1, path[1..], rest, layer)
    requires Opens(c, content, depth) && Uncovers(c, content, depth, k, candidate, next) && LinksTo(c, k, path, depth)
    ensures Peels(c, content, depth, path,
                  Peeling([content] + rest.layers, [k] + rest.scanners, [candidate] + rest.candidates), layer)
  {
    var p := Peeling([content] + rest.layers, [k] + rest.scanners, [candidate] + rest.candidates);
    var after := path[1..];
    assert PeelsAt(c, depth, path, p, 0);
    forall i: nat | 0 < i < |path| ensures PeelsAt(c, depth, path, p, i) {
      assert PeelsAt(c, depth + 1, after, rest, i - 1);
    }
  }

  // ---- what is reported -----------------------------------------------------------------------

  /** What was met in the last layer: a match of the detector, or the value of a sensitive variable. */
  ghost predicate MetIn(c: Scanner, path: seq<string>, layer: Content, subject: Subject, key: string) {
    || (&& |path| <= 3 && !c.allowListed(layer)
        && exists raw :: raw in c.detect(layer) && IsMatch(c, raw, subject, key))
    || (path == [] && !c.allowListed(layer) && subject in c.envValues(layer) && key == c.envKey(subject))
    || (path != [] && exists m :: m in c.decodedValues(layer, path[|path| - 1]) && IsValue(c, path, m, subject, key))
  }

  ghost predicate IsValue(c: Scanner, path: seq<string>, m: DecodedMatch, subject: Subject, key: string) {
    path != [] && m.subject == subject && key == c.decodedKey(m, path[|path| - 1])
  }

  ghost predicate IsMatch(c: Scanner, raw: RawFinding, subject: Subject, key: string) {
    && !c.matchAllowListed(raw.matched) && c.digests(raw.secret) == Some(subject.secret)
    && subject.ruleId == c.normalizeRule(raw.ruleId) && subject.line == raw.line && key == c.detectorKey(raw.secret)
  }

  /** Every finding of a whole scan was met in the layer that its path leads to. */
  lemma FindingWasMet(c: Scanner, content: Content, fs: seq<Finding>, keys: seq<string>, i: nat)
    returns (p: Peeling, layer: Content)
    requires AllExplained(c, content, 0, fs, keys) && i < |fs|
    ensures Peels(c, content, 0, fs[i].encodingPath, p, layer)
    ensures MetIn(c, fs[i].encodingPath, layer, fs[i].subject, keys[i])
    ensures fs[i].locationApproximate <==> fs[i].encodingPath != []
  {
    var f := fs[i];
    assert Explained(c, content, 0, f, keys[i]) && Located(0, f);
    layer :| Chain(c, content, 0, f.encodingPath, layer) && Origin(c, layer, 0, f.encodingPath, f.subject, keys[i]);
    p := ChainPeels(c, content, 0, f.encodingPath, layer);
    OriginIsMet(c, f.encodingPath, layer, f.subject, keys[i]);
  }

  lemma OriginIsMet(c: Scanner, path: seq<string>, layer: Content, subject: Subject, key: string)
    requires Origin(c, layer, 0, path, subject, key)
    ensures MetIn(c, path, layer, subject, key)
  {
    if Detected(c, layer, |path|, subject, key) {
      var raw :| raw in c.detect(layer) && Reports(c, raw, subject) && key == c.detectorKey(raw.secret);
      assert IsMatch(c, raw, subject, key);
    } else if path != [] && HoldsValue(c, layer, path[|path| - 1], subject, key) {
      var m :| m in c.decodedValues(layer, path[|path| - 1]) && m.subject == subject
        && key == c.decodedKey(m, path[|path| - 1]);
      assert IsValue(c, path, m, subject, key);
    }
  }

  /** A secret whose key is its own is reported from whatever layer within reach the detector matches it in. */
  lemma LayeredSecretIsReported(c: Scanner, content: Content, processed: set<string>, fs: seq<Finding>,
                                keys: seq<string>, path: seq<string>, p: Peeling, layer: Content, raw: RawFinding)
    requires AllExplained(c, content, 0, fs, keys) && Accounted(c, {}, processed, keys)
    requires Exhausted(c, content, 0, processed) && KeyIsOwn(c, raw.secret)
    requires Peels(c, content, 0, path, p, layer) && |path| <= 3 && !c.allowListed(layer)
    requires raw in c.detect(layer) && !c.matchAllowListed(raw.matched) && c.digests(raw.secret).Some?
    ensures exists i :: 0 <= i < |fs| && fs[i].subject.secret == c.digests(raw.secret).value
  {
    PeelingIsChain(c, content, 0, path, p, layer);
    EverySecretIsReported(c, content, processed, fs, keys, path, layer, raw);
  }

  /** A variable's value is reported from whatever decoded layer within reach it is met in, unless its key is spent. */
  lemma LayeredValueIsReported(c: Scanner, content: Content, processed: set<string>, fs: seq<Finding>, keys: seq<string>,
                               path: seq<string>, p: Peeling, layer: Content, m: DecodedMatch)
    requires AllExplained(c, content, 0, fs, keys) && Accounted(c, {}, processed, keys)
    requires Exhausted(c, content, 0, processed) && path != [] && Peels(c, content, 0, path, p, layer)
    requires m in c.decodedValues(layer, path[|path| - 1])
    requires forall secret :: c.digests(secret).None? ==> c.detectorKey(secret) != c.decodedKey(m, path[|path| - 1])
    ensures exists i :: 0 <= i < |fs| && keys[i] == c.decodedKey(m, path[|path| - 1])
  {
    PeelingIsChain(c, content, 0, path, p, layer);
    EveryValueIsReported(c, content, processed, fs, keys, path, layer, m);
  }
}
