/** The config builder (internal/registry/config.go) over the panel's probe
    material (internal/panel/poller.go, internal/panel/types.go). */
module Config {
  import opened Wrappers
  import opened Store
  import opened Sorting
  import opened Flatten
  import Paths

  datatype HopState = Joined | Legacy | OtherState
  datatype Hop = Hop(name: string, role: string, state: HopState) {
    function Path(): Path { Paths.HopPath(role, name) }
    predicate Probed() { (state == Joined || state == Legacy) && Paths.IsHopPath(Path()) }
  }

  /** `client` is empty on items every mon-client shares. */
  datatype ProbeItem = ProbeItem(kind: string, inbound: int, client: ClientId, link: string, conf: string)

  datatype Material = Material(
    revision: string,
    host: string,
    override: bool,
    chain: Option<seq<Hop>>,
    proxy: seq<ProbeItem>,
    direct: seq<ProbeItem>,
    hops: map<Path, seq<ProbeItem>>)

  // ---- the chain ----

  function Probed(hops: seq<Hop>): (r: seq<Hop>)
    ensures forall h :: h in r <==> h in hops && h.Probed()
  {
    if hops == [] then []
    else
      var last := hops[|hops| - 1];
      assert hops == hops[..|hops| - 1] + [last];
      Probed(hops[..|hops| - 1]) + (if last.Probed() then [last] else [])
  }

  function ProbedHops(chain: Option<seq<Hop>>): seq<Hop> {
    if chain == None then [] else Probed(chain.value)
  }

  method ListProbedHops(chain: Option<seq<Hop>>) returns (out: seq<Hop>)
    ensures out == ProbedHops(chain)
  {
    out := [];
    if chain == None {
      return;
    }
    var hops := chain.value;
    for i := 0 to |hops|
      invariant out == Probed(hops[..i])
    {
      assert hops[..i + 1][..i] == hops[..i];
      if hops[i].Probed() {
        out := out + [hops[i]];
      }
    }
    assert hops[..|hops|] == hops;
  }

  predicate Chained(mat: Material) { ProbedHops(mat.chain) != [] }

  function HopPaths(mat: Material): seq<Path> {
    var hops := ProbedHops(mat.chain);
    seq(|hops|, i requires 0 <= i < |hops| => hops[i].Path())
  }

  /** The panel's probed path set. */
  function Served(mat: Material): seq<Path> {
    if Chained(mat) then [PATH_DIRECT] + HopPaths(mat) else [PATH_DIRECT, PATH_PROXY]
  }

  function Items(mat: Material, path: Path): seq<ProbeItem> {
    if path == PATH_DIRECT then mat.direct
    else if path == PATH_PROXY then (if Chained(mat) || !mat.override then [] else mat.proxy)
    else if path in mat.hops then mat.hops[path] else []
  }

  /** What a material has for a path: its direct list; its proxy list while the override
      is on and no hop is probed; a hop's own list. */
  lemma ItemsAre(mat: Material, path: Path, item: ProbeItem)
    ensures item in Items(mat, path) <==>
            || (path == "direct" && item in mat.direct)
            || (path == "proxy" && mat.override && ProbedHops(mat.chain) == [] && item in mat.proxy)
            || (path != "direct" && path != "proxy" && path in mat.hops && item in mat.hops[path])
  {
  }

  // ---- paths vocabulary ----

  function DefaultPaths(): seq<string> { [PATH_DIRECT, PATH_HOPS] }

  function PathsOf(stored: seq<string>): seq<string> {
    if stored == [] then DefaultPaths() else stored
  }

  function Added(out: seq<Path>, p: Path): seq<Path> {
    if p in out then out else out + [p]
  }

  function AddedAll(out: seq<Path>, ps: seq<Path>): seq<Path> {
    if ps == [] then out else Added(AddedAll(out, ps[..|ps| - 1]), ps[|ps| - 1])
  }

  /** The paths one word of the vocabulary stands for. */
  function PathsOfWord(word: string, mat: Material): seq<Path> {
    if word == PATH_DIRECT then [PATH_DIRECT]
    else if word == PATH_HOPS && Chained(mat) then HopPaths(mat)
    else if word == PATH_HOPS then [PATH_PROXY]
    else if Chained(mat) && Paths.IsHopPath(word) && word in Served(mat) then [word]
    else []
  }

  function Expanded(vocab: seq<string>, mat: Material): seq<Path> {
    if vocab == [] then []
    else AddedAll(Expanded(vocab[..|vocab| - 1], mat), PathsOfWord(vocab[|vocab| - 1], mat))
  }

  method ExpandPaths(vocab: seq<string>, mat: Material) returns (out: seq<Path>)
    ensures out == Expanded(vocab, mat)
  {
    var served := Served(mat);
    var chained := Chained(mat);
    out := [];
    for i := 0 to |vocab|
      invariant out == Expanded(vocab[..i], mat)
    {
      assert vocab[..i + 1][..i] == vocab[..i];
      var v := vocab[i];
      if v == PATH_DIRECT {
        AddedOne(out, PATH_DIRECT);
        out := Added(out, PATH_DIRECT);
      } else if v == PATH_HOPS && chained {
        var paths, before := HopPaths(mat), out;
        for j := 0 to |paths|
          invariant out == AddedAll(before, paths[..j])
        {
          assert paths[..j + 1][..j] == paths[..j];
          out := Added(out, paths[j]);
        }
        assert paths[..|paths|] == paths;
      } else if v == PATH_HOPS {
        AddedOne(out, PATH_PROXY);
        out := Added(out, PATH_PROXY);
      } else if chained && Paths.IsHopPath(v) && v in served {
        AddedOne(out, v);
        out := Added(out, v);
      }
    }
    assert vocab[..|vocab|] == vocab;
  }

  lemma AddedOne(out: seq<Path>, p: Path)
    ensures AddedAll(out, [p]) == Added(out, p)
  {
    assert [p][..0] == [];
    assert AddedAll(out, []) == out;
  }

  lemma {:induction false} AddedAllAdds(out: seq<Path>, ps: seq<Path>)
    requires Distinct(out)
    ensures Distinct(AddedAll(out, ps))
    ensures forall p :: p in AddedAll(out, ps) <==> p in out || p in ps
  {
    if ps != [] {
      AddedAllAdds(out, ps[..|ps| - 1]);
      assert ps == ps[..|ps| - 1] + [ps[|ps| - 1]];
    }
  }

  /** What a vocabulary expands into: no path twice, and exactly the paths one of
      its words stands for. */
  lemma {:induction false} ExpandedPaths(vocab: seq<string>, mat: Material)
    ensures Distinct(Expanded(vocab, mat))
    ensures forall p :: p in Expanded(vocab, mat) <==> exists w <- vocab :: p in PathsOfWord(w, mat)
  {
    if vocab != [] {
      var init, last := vocab[..|vocab| - 1], vocab[|vocab| - 1];
      ExpandedPaths(init, mat);
      AddedAllAdds(Expanded(init, mat), PathsOfWord(last, mat));
      assert vocab == init + [last];
      forall p
        ensures p in Expanded(vocab, mat) <==> exists w <- vocab :: p in PathsOfWord(w, mat)
      {
        if p in PathsOfWord(last, mat) {
          assert last in vocab;
        }
      }
    }
  }

  /** A probed hop of the chain: joined or legacy, with a valid path. */
  ghost predicate IsProbedHop(mat: Material, h: Hop) {
    && mat.chain.Some? && h in mat.chain.value
    && (h.state == Joined || h.state == Legacy) && Paths.IsHopPath(h.role + ":" + h.name)
  }

  ghost predicate HasHop(mat: Material, p: Path) {
    exists h: Hop :: IsProbedHop(mat, h) && p == h.role + ":" + h.name
  }

  lemma HopsAreTheHops(mat: Material, p: Path)
    ensures p in HopPaths(mat) <==> HasHop(mat, p)
    ensures Chained(mat) <==> exists h: Hop :: IsProbedHop(mat, h)
    ensures HasHop(mat, p) ==> Paths.IsHopPath(p) && p != PATH_DIRECT && p != PATH_PROXY && p != PATH_HOPS
  {
    var hops := ProbedHops(mat.chain);
    forall h: Hop ensures h in hops <==> IsProbedHop(mat, h) {
    }
    if p in HopPaths(mat) {
      var i :| 0 <= i < |hops| && HopPaths(mat)[i] == p;
      assert hops[i] in hops;
    }
    if h: Hop :| IsProbedHop(mat, h) && p == h.role + ":" + h.name {
      var i :| 0 <= i < |hops| && hops[i] == h;
      assert HopPaths(mat)[i] == p;
      assert ':' in p;
    }
    if Chained(mat) {
      assert hops[0] in hops;
    }
  }

  /** The panel serves direct, and with it every probed hop, or proxy without one. */
  lemma ServedAre(mat: Material, p: Path)
    ensures p in Served(mat) <==>
            p == "direct" || HasHop(mat, p) || (p == "proxy" && forall h: Hop :: !IsProbedHop(mat, h))
  {
    HopsAreTheHops(mat, p);
    if Chained(mat) {
      assert Served(mat) == [PATH_DIRECT] + HopPaths(mat);
    }
  }

  /** What a vocabulary expands into, word by word: direct for itself, a probed hop for
      itself, and "hops" for every probed hop, or for proxy when there is none. */
  lemma ExpandedAre(vocab: seq<string>, mat: Material, p: Path)
    ensures p in Expanded(vocab, mat) <==>
            || (p == "direct" && "direct" in vocab)
            || (HasHop(mat, p) && (p in vocab || "hops" in vocab))
            || (p == "proxy" && "hops" in vocab && forall h: Hop :: !IsProbedHop(mat, h))
  {
    ExpandedPaths(vocab, mat);
    HopsAreTheHops(mat, p);
    if p in Expanded(vocab, mat) {
      var w :| w in vocab && p in PathsOfWord(w, mat);
      WordIs(w, mat, p);
    }
    if p == "direct" && "direct" in vocab {
      WordIs("direct", mat, p);
    }
    if HasHop(mat, p) && p in vocab {
      WordIs(p, mat, p);
    }
    if "hops" in vocab {
      WordIs("hops", mat, p);
    }
  }

  lemma WordIs(w: string, mat: Material, p: Path)
    ensures p in PathsOfWord(w, mat) <==>
            || (p == "direct" && w == "direct")
            || (HasHop(mat, p) && (w == p || w == "hops"))
            || (p == "proxy" && w == "hops" && forall h: Hop :: !IsProbedHop(mat, h))
  {
    HopsAreTheHops(mat, p);
    HopsAreTheHops(mat, w);
    ServedAre(mat, w);
  }

  /** A mon-client only ever probes paths the panel serves. */
  lemma ExpandedIsServed(vocab: seq<string>, mat: Material)
    ensures forall p <- Expanded(vocab, mat) :: p in Served(mat)
  {
    ExpandedPaths(vocab, mat);
  }

  predicate InVocabulary(p: string) {
    p == PATH_DIRECT || p == PATH_HOPS || Paths.IsHopPath(p)
  }

  /** validatePaths: None is ErrInvalidPath. */
  method ValidatePaths(paths: seq<string>) returns (r: Option<seq<string>>)
    ensures r == None <==> exists i :: 0 <= i < |paths| && paths[i] != "direct" && paths[i] != "hops" && !Paths.IsHopPath(paths[i])
    ensures r.Some? ==> r.value == if paths == [] then ["direct", "hops"] else AddedAll([], paths)
  {
    if |paths| == 0 {
      return Some(DefaultPaths());
    }
    var out: seq<string> := [];
    for i := 0 to |paths|
      invariant out == AddedAll([], paths[..i])
      invariant forall j :: 0 <= j < i ==> InVocabulary(paths[j])
    {
      assert paths[..i + 1][..i] == paths[..i];
      if !InVocabulary(paths[i]) {
        return None;
      }
      out := Added(out, paths[i]);
    }
    assert paths[..|paths|] == paths;
    return Some(out);
  }

  /** What is stored holds each given word once, and nothing else. */
  lemma ValidatedPaths(paths: seq<string>)
    ensures Distinct(AddedAll([], paths)) && forall p :: p in AddedAll([], paths) <==> p in paths
  {
    AddedAllAdds([], paths);
  }

  // ---- the document ----

  datatype ConfigTarget = ConfigTarget(key: TargetKey, protocol: string, link: string, conf: string)

  /** The document without its revision, which is a hash of exactly this. */
  datatype ConfigDoc = ConfigDoc(client: ClientId, settings: string, targets: seq<ConfigTarget>)

  predicate ItemFor(item: ProbeItem, client: ClientId) {
    item.kind != KIND_AWG || item.client == client
  }

  function ProtocolOf(key: TargetKey, protocols: map<InboundKey, string>): string {
    if key.kind == KIND_AWG then KIND_AWG
    else if key.Inbound() in protocols then protocols[key.Inbound()] else ""
  }

  function TargetOf(item: ProbeItem, path: Path, protocols: map<InboundKey, string>): ConfigTarget {
    var key := TargetKey(item.kind, item.inbound, path);
    ConfigTarget(key, ProtocolOf(key, protocols), item.link, item.conf)
  }

  /** The targets of one path: its items this mon-client may use. */
  function TargetsOf(items: seq<ProbeItem>, path: Path, client: ClientId, protocols: map<InboundKey, string>): seq<ConfigTarget> {
    Flat(items, (item: ProbeItem) => if ItemFor(item, client) then [TargetOf(item, path, protocols)] else [])
  }

  function OnPath(mat: Material, client: ClientId, protocols: map<InboundKey, string>): Path -> seq<ConfigTarget> {
    path => TargetsOf(Items(mat, path), path, client, protocols)
  }

  function Gathered(paths: seq<Path>, mat: Material, client: ClientId, protocols: map<InboundKey, string>): seq<ConfigTarget> {
    Flat(paths, OnPath(mat, client, protocols))
  }

  predicate TargetLe(x: ConfigTarget, y: ConfigTarget) { KeyLe(x.key, y.key) }

  function Built(stored: seq<string>, mat: Material, client: ClientId, settings: string, protocols: map<InboundKey, string>): ConfigDoc {
    ConfigDoc(client, settings, Sort(Gathered(Expanded(PathsOf(stored), mat), mat, client, protocols), TargetLe))
  }

  method Collect(before: seq<ConfigTarget>, path: Path, mat: Material, client: ClientId, protocols: map<InboundKey, string>)
    returns (targets: seq<ConfigTarget>)
    ensures targets == before + TargetsOf(Items(mat, path), path, client, protocols)
  {
    targets := before;
    var items := Items(mat, path);
    for j := 0 to |items|
      invariant targets == before + TargetsOf(items[..j], path, client, protocols)
    {
      assert items[..j + 1][..j] == items[..j];
      if ItemFor(items[j], client) {
        targets := targets + [TargetOf(items[j], path, protocols)];
      }
    }
    assert items[..|items|] == items;
  }

  method Gather(paths: seq<Path>, mat: Material, client: ClientId, protocols: map<InboundKey, string>)
    returns (targets: seq<ConfigTarget>)
    ensures targets == Gathered(paths, mat, client, protocols)
  {
    targets := [];
    for i := 0 to |paths|
      invariant targets == Gathered(paths[..i], mat, client, protocols)
    {
      OneMorePath(paths, i, mat, client, protocols);
      targets := Collect(targets, paths[i], mat, client, protocols);
    }
    assert paths[..|paths|] == paths;
  }

  lemma OneMorePath(paths: seq<Path>, i: nat, mat: Material, client: ClientId, protocols: map<InboundKey, string>)
    requires i < |paths|
    ensures Gathered(paths[..i + 1], mat, client, protocols) ==
            Gathered(paths[..i], mat, client, protocols) + TargetsOf(Items(mat, paths[i]), paths[i], client, protocols)
  {
    assert paths[..i + 1] == paths[..i] + [paths[i]];
    FlatAppend(paths[..i], paths[i], OnPath(mat, client, protocols));
  }

  method Build(stored: seq<string>, mat: Material, client: ClientId, settings: string, protocols: map<InboundKey, string>)
    returns (doc: ConfigDoc)
    ensures doc == Built(stored, mat, client, settings, protocols)
  {
    var paths := ExpandPaths(PathsOf(stored), mat);
    var targets := Gather(paths, mat, client, protocols);
    doc := ConfigDoc(client, settings, Sort(targets, TargetLe));
  }

  /** samePaths: equal once sorted. */
  predicate SamePaths(a: seq<string>, b: seq<string>) {
    Sort(a, TextLe) == Sort(b, TextLe)
  }

  lemma TextLeIsOrder()
    ensures TotalPreorder(TextLe)
  {
    forall a, b ensures TextLe(a, b) || TextLe(b, a) {
      TextTotal(a, b);
    }
    forall a, b, c | TextLe(a, b) && TextLe(b, c) ensures TextLe(a, c) {
      TextTransitive(a, b, c);
    }
  }

  lemma TargetLeIsOrder()
    ensures TotalPreorder(TargetLe)
  {
    forall x: ConfigTarget, y: ConfigTarget ensures TargetLe(x, y) || TargetLe(y, x) {
      KeyOrder(x.key, y.key);
    }
    forall x: ConfigTarget, y: ConfigTarget, z: ConfigTarget | TargetLe(x, y) && TargetLe(y, z) ensures TargetLe(x, z) {
      KeyTransitive(x.key, y.key, z.key);
    }
  }

  lemma KeyLeIsOrder()
    ensures TotalPreorder(KeyLe)
  {
    forall x: TargetKey, y: TargetKey ensures KeyLe(x, y) || KeyLe(y, x) {
      KeyOrder(x, y);
    }
    forall x: TargetKey, y: TargetKey, z: TargetKey | KeyLe(x, y) && KeyLe(y, z) ensures KeyLe(x, z) {
      KeyTransitive(x, y, z);
    }
  }

  /** samePaths asks exactly whether two lists hold the same words, each as often. */
  lemma SamePathsIffSameWords(a: seq<string>, b: seq<string>)
    ensures SamePaths(a, b) <==> multiset(a) == multiset(b)
  {
    TextLeIsOrder();
    SortSorts(a, TextLe);
    SortSorts(b, TextLe);
    if multiset(a) == multiset(b) {
      TextsAreUntied(Sort(a, TextLe));
      SortedIsUnique(Sort(a, TextLe), Sort(b, TextLe), TextLe);
    }
  }

  lemma TextsAreUntied(xs: seq<string>)
    ensures Untied(xs, TextLe)
  {
    forall i, j | 0 <= i < j < |xs| && TextLe(xs[i], xs[j]) && TextLe(xs[j], xs[i]) ensures xs[i] == xs[j] {
      TextTotal(xs[i], xs[j]);
    }
  }

  /** One mon-client gets at most one item of an inbound on each path. */
  ghost predicate DistinctItems(mat: Material, client: ClientId) {
    forall p: Path, i, j :: 0 <= i < j < |Items(mat, p)| ==> ApartFor(Items(mat, p)[i], Items(mat, p)[j], client)
  }

  ghost predicate ApartFor(one: ProbeItem, two: ProbeItem, client: ClientId) {
    || (one.kind == "awg" && one.client != client)
    || (two.kind == "awg" && two.client != client)
    || one.kind != two.kind || one.inbound != two.inbound
  }

  /** Every target comes from an item of its own path. */
  lemma TargetsComeFromItems(items: seq<ProbeItem>, path: Path, client: ClientId, protocols: map<InboundKey, string>)
    ensures forall t :: t in TargetsOf(items, path, client, protocols)
              <==> exists item <- items :: ItemFor(item, client) && t == TargetOf(item, path, protocols)
  {
    var f := (item: ProbeItem) => if ItemFor(item, client) then [TargetOf(item, path, protocols)] else [];
    FlatMembers(items, f);
    assert TargetsOf(items, path, client, protocols) == Flat(items, f);
  }

  lemma GatheredComesFromPaths(paths: seq<Path>, mat: Material, client: ClientId, protocols: map<InboundKey, string>)
    ensures forall t :: t in Gathered(paths, mat, client, protocols)
              <==> exists p <- paths :: t in TargetsOf(Items(mat, p), p, client, protocols)
  {
    FlatMembers(paths, OnPath(mat, client, protocols));
  }

  ghost predicate DistinctKeys(ts: seq<ConfigTarget>) {
    forall i, j :: 0 <= i < j < |ts| ==> ts[i].key != ts[j].key
  }

  lemma {:induction false} TargetsHaveDistinctKeys(items: seq<ProbeItem>, path: Path, client: ClientId, protocols: map<InboundKey, string>)
    requires forall i, j :: 0 <= i < j < |items| ==> ApartFor(items[i], items[j], client)
    ensures DistinctKeys(TargetsOf(items, path, client, protocols))
  {
    if items != [] {
      var init, last := items[..|items| - 1], items[|items| - 1];
      TargetsHaveDistinctKeys(init, path, client, protocols);
      TargetsComeFromItems(init, path, client, protocols);
      var ts := TargetsOf(init, path, client, protocols);
      forall i | 0 <= i < |ts| && ItemFor(last, client)
        ensures ts[i].key != TargetOf(last, path, protocols).key
      {
        assert ts[i] in ts;
        var item :| item in init && ItemFor(item, client) && ts[i] == TargetOf(item, path, protocols);
        var k :| 0 <= k < |init| && init[k] == item;
        assert items[k] == item && items[|items| - 1] == last;
      }
    }
  }

  lemma {:induction false} GatheredHasDistinctKeys(paths: seq<Path>, mat: Material, client: ClientId, protocols: map<InboundKey, string>)
    requires Distinct(paths) && DistinctItems(mat, client)
    ensures DistinctKeys(Gathered(paths, mat, client, protocols))
  {
    if paths != [] {
      var init, last := paths[..|paths| - 1], paths[|paths| - 1];
      GatheredHasDistinctKeys(init, mat, client, protocols);
      TargetsHaveDistinctKeys(Items(mat, last), last, client, protocols);
      GatheredComesFromPaths(init, mat, client, protocols);
      TargetsComeFromItems(Items(mat, last), last, client, protocols);
      var before, more := Gathered(init, mat, client, protocols), TargetsOf(Items(mat, last), last, client, protocols);
      forall i, j | 0 <= i < |before| && 0 <= j < |more|
        ensures before[i].key != more[j].key
      {
        assert before[i] in before && more[j] in more;
        var p :| p in init && before[i] in TargetsOf(Items(mat, p), p, client, protocols);
        TargetsComeFromItems(Items(mat, p), p, client, protocols);
      }
    }
  }

  /** Path lists that samePaths equates build the same document, so skipping the
      rebuild when only their order changed loses nothing. */
  lemma SamePathsBuildSameDoc(a: seq<string>, b: seq<string>, mat: Material, client: ClientId, settings: string, protocols: map<InboundKey, string>)
    requires SamePaths(a, b) && DistinctItems(mat, client)
    ensures Built(a, mat, client, settings, protocols) == Built(b, mat, client, settings, protocols)
  {
    SamePathsIffSameWords(a, b);
    SameWordsSamePaths(a, b, mat);
    var ps, qs := Expanded(PathsOf(a), mat), Expanded(PathsOf(b), mat);
    FlatIgnoresOrder(ps, qs, OnPath(mat, client, protocols));
    GatheredHasDistinctKeys(ps, mat, client, protocols);
    SortsAlike(Gathered(ps, mat, client, protocols), Gathered(qs, mat, client, protocols));
  }

  lemma SameWordsSamePaths(a: seq<string>, b: seq<string>, mat: Material)
    requires multiset(a) == multiset(b)
    ensures var ps, qs := Expanded(PathsOf(a), mat), Expanded(PathsOf(b), mat);
            Distinct(ps) && Distinct(qs) && forall p :: p in ps <==> p in qs
  {
    assert forall w :: w in a <==> w in multiset(a);
    assert forall w :: w in b <==> w in multiset(b);
    assert a == [] <==> b == [] by {
      if a != [] {
        assert a[0] in b;
      }
      if b != [] {
        assert b[0] in a;
      }
    }
    ExpandedPaths(PathsOf(a), mat);
    ExpandedPaths(PathsOf(b), mat);
  }

  lemma SortsAlike(xs: seq<ConfigTarget>, ys: seq<ConfigTarget>)
    requires multiset(xs) == multiset(ys) && DistinctKeys(xs)
    ensures Sort(xs, TargetLe) == Sort(ys, TargetLe)
  {
    TargetLeIsOrder();
    SortSorts(xs, TargetLe);
    SortSorts(ys, TargetLe);
    SortIsUntied(xs);
    SortedIsUnique(Sort(xs, TargetLe), Sort(ys, TargetLe), TargetLe);
  }

  lemma SortIsUntied(xs: seq<ConfigTarget>)
    requires DistinctKeys(xs)
    ensures Untied(Sort(xs, TargetLe), TargetLe)
  {
    TargetLeIsOrder();
    SortSorts(xs, TargetLe);
    PermutedKeysStayDistinct(xs, Sort(xs, TargetLe));
    forall x: ConfigTarget, y: ConfigTarget | TargetLe(x, y) && TargetLe(y, x) ensures x.key == y.key {
      KeyOrder(x.key, y.key);
    }
  }

  lemma PermutedKeysStayDistinct(xs: seq<ConfigTarget>, ys: seq<ConfigTarget>)
    requires DistinctKeys(xs) && multiset(xs) == multiset(ys)
    ensures DistinctKeys(ys)
  {
    DistinctIsPermuted(xs, ys);
    forall i, j | 0 <= i < j < |ys|
      ensures ys[i].key != ys[j].key
    {
      var x, y := ys[i], ys[j];
      assert x in multiset(ys) && y in multiset(ys);
      var k :| 0 <= k < |xs| && xs[k] == x;
      var l :| 0 <= l < |xs| && xs[l] == y;
      if k < l {
        assert xs[k].key != xs[l].key;
      } else {
        assert xs[l].key != xs[k].key;
      }
    }
  }

  // ---- why a target is out of the document ----

  datatype Exclusions = Exclusions(known: bool, served: set<Path>, paths: set<Path>, override: bool, inbounds: map<InboundKey, bool>)

  const NOTHING_KNOWN := Exclusions(false, {}, {}, false, map[])

  predicate Retired(x: Exclusions, key: TargetKey) {
    x.known && key.path !in x.served
  }

  predicate Enabled(x: Exclusions, key: InboundKey) {
    key in x.inbounds && x.inbounds[key]
  }

  /** Exclusions.Reason: NoReason when the config is not why. */
  function Reason(x: Exclusions, key: TargetKey): Store.Reason {
    if !x.known || Retired(x, key) then NoReason
    else if !Enabled(x, key.Inbound()) then NoReason
    else if key.path !in x.paths then PathRemoved
    else if key.path == PATH_PROXY && !x.override then OverrideDisabled
    else NoProbeLink
  }

  /** The paths of x crossed with one inbound, proxy only while the override is on. */
  function Crossed(x: Exclusions, i: InboundKey): set<TargetKey> {
    set p | p in x.paths && (p != PATH_PROXY || x.override) :: TargetKey(i.kind, i.inbound, p)
  }

  predicate Offers(x: Exclusions, kind: string, i: InboundKey) {
    i in x.inbounds && x.inbounds[i] && i.kind == kind
  }

  function ExpectedOf(x: Exclusions, kind: string): set<TargetKey> {
    if !x.known then {} else set i, k | i in x.inbounds.Keys && Offers(x, kind, i) && k in Crossed(x, i) :: k
  }

  method Cross(x: Exclusions, i: InboundKey, before: seq<TargetKey>) returns (out: seq<TargetKey>)
    ensures multiset(out) == multiset(before) + multiset(Crossed(x, i))
  {
    out := before;
    var paths := x.paths;
    ghost var done: set<TargetKey> := {};
    while paths != {}
      invariant paths <= x.paths
      invariant done == set p | p in x.paths - paths && (p != PATH_PROXY || x.override) :: TargetKey(i.kind, i.inbound, p)
      invariant multiset(out) == multiset(before) + multiset(done)
      decreases paths
    {
      var p :| p in paths;
      if p != PATH_PROXY || x.override {
        var key := TargetKey(i.kind, i.inbound, p);
        assert key !in done;
        out := out + [key];
        done := done + {key};
      }
      paths := paths - {p};
    }
    assert done == Crossed(x, i);
  }

  /** Expected, in the order the document uses. */
  method Expected(x: Exclusions, kind: string) returns (out: seq<TargetKey>)
    ensures Sorted(out, KeyLe) && multiset(out) == multiset(ExpectedOf(x, kind))
  {
    out := [];
    if !x.known {
      return;
    }
    ghost var done: set<TargetKey> := {};
    var inbounds := x.inbounds.Keys;
    while inbounds != {}
      invariant inbounds <= x.inbounds.Keys
      invariant done == set i, k | i in x.inbounds.Keys - inbounds && Offers(x, kind, i) && k in Crossed(x, i) :: k
      invariant multiset(out) == multiset(done)
      decreases inbounds
    {
      var i :| i in inbounds;
      if x.inbounds[i] && i.kind == kind {
        out := Cross(x, i, out);
        CrossedIsDisjoint(x, kind, i, x.inbounds.Keys - inbounds, done);
        done := done + Crossed(x, i);
      }
      inbounds := inbounds - {i};
    }
    KeyLeIsOrder();
    SortSorts(out, KeyLe);
    assert done == ExpectedOf(x, kind);
    out := Sort(out, KeyLe);
  }

  lemma CrossedIsDisjoint(x: Exclusions, kind: string, i: InboundKey, others: set<InboundKey>, done: set<TargetKey>)
    requires i !in others
    requires done == set j, k | j in others && Offers(x, kind, j) && k in Crossed(x, j) :: k
    ensures multiset(done) + multiset(Crossed(x, i)) == multiset(done + Crossed(x, i))
  {
    forall k | k in done ensures k !in Crossed(x, i) {
      var j :| j in others && Offers(x, kind, j) && k in Crossed(x, j);
    }
  }

  /** The exclusions a heartbeat is judged by, from the same inputs as a build. */
  function ExclusionsOf(stored: seq<string>, mat: Option<Material>, inbounds: map<InboundKey, bool>): Exclusions {
    if mat == None then NOTHING_KNOWN
    else Exclusions(true, (set p | p in Served(mat.value)), (set p | p in Expanded(PathsOf(stored), mat.value)),
                    mat.value.override, inbounds)
  }

  ghost predicate InDoc(doc: ConfigDoc, key: TargetKey) {
    exists t <- doc.targets :: t.key == key
  }

  /** The protocol a target of the document is marked with. */
  ghost predicate MarkedWith(protocol: string, key: TargetKey, protocols: map<InboundKey, string>) {
    if key.kind == "awg" then protocol == "awg"
    else if InboundKey(key.kind, key.inbound) in protocols then protocol == protocols[InboundKey(key.kind, key.inbound)]
    else protocol == ""
  }

  predicate Carries(item: ProbeItem, t: ConfigTarget) {
    item.kind == t.key.kind && item.inbound == t.key.inbound && item.link == t.link && item.conf == t.conf
  }

  ghost predicate PathHolds(items: seq<ProbeItem>, client: ClientId, protocols: map<InboundKey, string>, t: ConfigTarget) {
    MarkedWith(t.protocol, t.key, protocols) && exists item <- items :: Carries(item, t) && (item.kind == "awg" ==> item.client == client)
  }

  /** A document holds a target exactly when its path is probed and the panel has an
      item for it there, an AWG one naming this very mon-client; link and conf are the
      item's. */
  lemma DocumentHolds(stored: seq<string>, mat: Material, client: ClientId, settings: string, protocols: map<InboundKey, string>, t: ConfigTarget)
    ensures t in Built(stored, mat, client, settings, protocols).targets <==>
            t.key.path in Expanded(PathsOf(stored), mat) && PathHolds(Items(mat, t.key.path), client, protocols, t)
  {
    hide TargetsOf, Built, Expanded, Items, PathsOf, Gathered, MarkedWith, Carries;
    var paths := Expanded(PathsOf(stored), mat);
    BuiltHoldsGathered(stored, mat, client, settings, protocols, t);
    GatheredComesFromPaths(paths, mat, client, protocols);
    TargetsHold(Items(mat, t.key.path), t.key.path, client, protocols, t);
    if t in Gathered(paths, mat, client, protocols) {
      var p :| p in paths && t in TargetsOf(Items(mat, p), p, client, protocols);
      TargetsHold(Items(mat, p), p, client, protocols, t);
    }
  }

  lemma TargetsHold(items: seq<ProbeItem>, path: Path, client: ClientId, protocols: map<InboundKey, string>, t: ConfigTarget)
    ensures t in TargetsOf(items, path, client, protocols) <==> t.key.path == path && PathHolds(items, client, protocols, t)
  {
    TargetsComeFromItems(items, path, client, protocols);
    hide TargetsOf;
    if item :| item in items && Carries(item, t) && (item.kind == "awg" ==> item.client == client) {
      if t.key.path == path && MarkedWith(t.protocol, t.key, protocols) {
        assert t == TargetOf(item, path, protocols);
      }
    }
  }

  lemma BuiltHoldsGathered(stored: seq<string>, mat: Material, client: ClientId, settings: string, protocols: map<InboundKey, string>, t: ConfigTarget)
    ensures t in Built(stored, mat, client, settings, protocols).targets <==> t in Gathered(Expanded(PathsOf(stored), mat), mat, client, protocols)
  {
    var all := Gathered(Expanded(PathsOf(stored), mat), mat, client, protocols);
    TargetLeIsOrder();
    SortSorts(all, TargetLe);
    assert t in Sort(all, TargetLe) <==> t in multiset(Sort(all, TargetLe));
    assert t in all <==> t in multiset(all);
  }

  /** So no AWG target of a document comes from an item of another mon-client alone. */
  lemma AwgIsOnesOwn(stored: seq<string>, mat: Material, client: ClientId, settings: string, protocols: map<InboundKey, string>, t: ConfigTarget)
    requires t in Built(stored, mat, client, settings, protocols).targets && t.key.kind == "awg"
    ensures exists item <- Items(mat, t.key.path) :: item.client == client && Carries(item, t)
  {
    DocumentHolds(stored, mat, client, settings, protocols, t);
  }

  /** A document is the mon-client's, with the settings given, sorted by kind, inbound
      and path, and under one item per inbound no key is in it twice. */
  lemma DocumentIsSorted(stored: seq<string>, mat: Material, client: ClientId, settings: string, protocols: map<InboundKey, string>)
    ensures var doc := Built(stored, mat, client, settings, protocols);
            && doc.client == client && doc.settings == settings
            && (DistinctItems(mat, client) ==> DistinctKeys(doc.targets))
            && forall i, j :: 0 <= i < j < |doc.targets| ==>
                 var x, y := doc.targets[i].key, doc.targets[j].key;
                 if x.kind != y.kind then TextLe(x.kind, y.kind)
                 else if x.inbound != y.inbound then x.inbound < y.inbound
                 else TextLe(x.path, y.path)
  {
    var paths := Expanded(PathsOf(stored), mat);
    var all := Gathered(paths, mat, client, protocols);
    TargetLeIsOrder();
    SortSorts(all, TargetLe);
    if DistinctItems(mat, client) {
      ExpandedPaths(PathsOf(stored), mat);
      GatheredHasDistinctKeys(paths, mat, client, protocols);
      PermutedKeysStayDistinct(all, Sort(all, TargetLe));
    }
  }

  /** A key is in the document exactly when the panel handed this mon-client an
      item for it on a path it probes. */
  lemma DocKeys(stored: seq<string>, mat: Material, client: ClientId, settings: string, protocols: map<InboundKey, string>, key: TargetKey)
    ensures InDoc(Built(stored, mat, client, settings, protocols), key) <==>
            && key.path in Expanded(PathsOf(stored), mat)
            && exists item <- Items(mat, key.path) :: item.kind == key.kind && item.inbound == key.inbound && (item.kind == "awg" ==> item.client == client)
  {
    hide Built, Expanded, Items, PathsOf;
    var doc := Built(stored, mat, client, settings, protocols);
    if InDoc(doc, key) {
      var t :| t in doc.targets && t.key == key;
      DocumentHolds(stored, mat, client, settings, protocols, t);
    } else if item :| item in Items(mat, key.path) && item.kind == key.kind && item.inbound == key.inbound && (item.kind == "awg" ==> item.client == client) {
      var t := ConfigTarget(key, ProtocolOf(key, protocols), item.link, item.conf);
      assert Carries(item, t);
      DocumentHolds(stored, mat, client, settings, protocols, t);
    }
  }

  /** An expected target: its inbound enabled and of the kind, its path probed, and proxy
      only while the override is on. */
  lemma ExpectedAre(x: Exclusions, kind: string, key: TargetKey)
    ensures key in ExpectedOf(x, kind) <==>
            && x.known && key.kind == kind
            && InboundKey(key.kind, key.inbound) in x.inbounds && x.inbounds[InboundKey(key.kind, key.inbound)]
            && key.path in x.paths && (key.path == "proxy" ==> x.override)
  {
    var i := InboundKey(key.kind, key.inbound);
    if x.known && i in x.inbounds && x.inbounds[i] && key.kind == kind && key.path in x.paths && (key.path == "proxy" ==> x.override) {
      assert key == TargetKey(i.kind, i.inbound, key.path);
      assert Offers(x, kind, i) && key in Crossed(x, i);
    }
  }

  /** What a heartbeat is judged by says what the panel and the mon-client's own words
      say; nothing is known without a material. */
  lemma ExclusionsAre(stored: seq<string>, mat: Option<Material>, inbounds: map<InboundKey, bool>, p: Path)
    ensures var x := ExclusionsOf(stored, mat, inbounds);
            if mat == None then !x.known
            else
              && x.known && x.inbounds == inbounds && (x.override <==> mat.value.override)
              && (p in x.served <==> p in Served(mat.value))
              && (p in x.paths <==> p in Expanded(if stored == [] then ["direct", "hops"] else stored, mat.value))
  {
  }

  /** Why a target is out of the document, in the order the reasons are tried: for a
      retired path or an inbound that is off the config is not why. */
  lemma ReasonsAre(x: Exclusions, key: TargetKey)
    ensures var r := Reason(x, key);
            var offered := x.known && key.path in x.served && InboundKey(key.kind, key.inbound) in x.inbounds
                           && x.inbounds[InboundKey(key.kind, key.inbound)];
            && (r == PathRemoved <==> offered && key.path !in x.paths)
            && (r == OverrideDisabled <==> offered && key.path in x.paths && key.path == "proxy" && !x.override)
            && (r == NoProbeLink <==> offered && key.path in x.paths && (key.path == "proxy" ==> x.override))
            && (r == NoReason <==> !offered)
  {
  }

  /** No key of a document is retired under the material it was built from. */
  lemma DocKeysAreNotRetired(stored: seq<string>, mat: Material, inbounds: map<InboundKey, bool>, client: ClientId, settings: string, protocols: map<InboundKey, string>, key: TargetKey)
    ensures InDoc(Built(stored, mat, client, settings, protocols), key) ==> !Retired(ExclusionsOf(stored, Some(mat), inbounds), key)
  {
    DocKeys(stored, mat, client, settings, protocols, key);
    ExpandedIsServed(PathsOf(stored), mat);
  }

  /** An expected target can only be out of the document for want of an item. */
  lemma ExpectedLacksOnlyItsLink(stored: seq<string>, mat: Option<Material>, inbounds: map<InboundKey, bool>, kind: string, key: TargetKey)
    requires key in ExpectedOf(ExclusionsOf(stored, mat, inbounds), kind)
    ensures Reason(ExclusionsOf(stored, mat, inbounds), key) == NoProbeLink
  {
    ExpandedIsServed(PathsOf(stored), mat.value);
  }

  /** For a key outside the document, no_probe_link is given exactly when its
      inbound is enabled, its path is one this mon-client probes (proxy only while
      the override is on), and the panel really handed out no item for it. */
  lemma NoProbeLinkIsHonest(stored: seq<string>, mat: Material, inbounds: map<InboundKey, bool>, client: ClientId, settings: string, protocols: map<InboundKey, string>, key: TargetKey)
    ensures var x := ExclusionsOf(stored, Some(mat), inbounds);
            !InDoc(Built(stored, mat, client, settings, protocols), key) ==>
              (Reason(x, key) == NoProbeLink <==>
               && Enabled(x, key.Inbound()) && key.path in x.paths && (key.path != PATH_PROXY || mat.override)
               && !exists item <- Items(mat, key.path) :: item.kind == key.kind && item.inbound == key.inbound && (item.kind == "awg" ==> item.client == client))
  {
    DocKeys(stored, mat, client, settings, protocols, key);
    ExpandedIsServed(PathsOf(stored), mat);
  }
}
