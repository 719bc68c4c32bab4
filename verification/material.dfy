/** The probe material: how one poll cycle re-reads it, and what is rebuilt from it
    (internal/panel/poller.go, readMaterial and RefreshMaterial). */
module ProbeMaterial {
  import opened Wrappers
  import opened Store
  import opened Flatten
  import opened PanelClient
  import opened Config

  /** What a cycle reads material for: GET /state's answer and the host setting. */
  datatype Ask = Ask(revision: string, host: string, override: bool, chain: Option<seq<Hop>>)

  /** The panel is asked about a hop by its name alone: edge:x and inner:x are one
      request. */
  datatype Question = DirectFor(host: string) | HopNamed(name: string) | ProxyFront

  datatype ConfigAnswer = Configs(revision: string, items: seq<ProbeItem>) | Failed(failure: Failure)

  /** `built` is the material of the last RebuildAll that finished and `synced` the
      served paths of the last SyncPaths that did. */
  datatype Cache = Cache(material: Option<Material>, stale: bool, built: Option<Material>, synced: Option<seq<Path>>)

  const NOTHING := Cache(None, false, None, None)

  /** Whether RebuildAll and SyncPaths work when a read reaches them. */
  datatype Tail = Tail(rebuilds: bool, syncs: bool)

  datatype ReadError = Panel(failure: Failure) | RebuildFailed | SyncFailed

  function HopQuestions(hops: seq<Hop>): seq<Question> {
    seq(|hops|, i requires 0 <= i < |hops| => HopNamed(hops[i].name))
  }

  function LaterQuestions(a: Ask): seq<Question> {
    var hops := ProbedHops(a.chain);
    if hops != [] then HopQuestions(hops) else if a.override then [ProxyFront] else []
  }

  /** The requests a cycle makes, in order, as long as they are answered. */
  function Questions(a: Ask): seq<Question> {
    [DirectFor(a.host)] + LaterQuestions(a)
  }

  predicate Needed(c: Cache, a: Ask) {
    && a.host != ""
    && (c.material == None || c.material.value.revision != a.revision || c.material.value.host != a.host || c.stale)
  }

  /** Every request was answered, and under the revision the cycle is about. */
  predicate AllStamped(a: Ask, answers: seq<ConfigAnswer>) {
    |answers| == |Questions(a)| && forall x <- answers :: x.Configs? && x.revision == a.revision
  }

  function ItemsOf(x: ConfigAnswer): seq<ProbeItem> {
    if x.Configs? then x.items else []
  }

  function HopItems(hops: seq<Hop>, answers: seq<ConfigAnswer>): map<Path, seq<ProbeItem>>
    requires |answers| == |hops|
  {
    if hops == [] then map[]
    else
      var n := |hops| - 1;
      HopItems(hops[..n], answers[..n])[hops[n].Path() := ItemsOf(answers[n])]
  }

  function MaterialFrom(a: Ask, answers: seq<ConfigAnswer>): Material
    requires |answers| == |Questions(a)|
  {
    var hops := ProbedHops(a.chain);
    Material(a.revision, a.host, a.override, a.chain,
             if hops == [] && a.override then ItemsOf(answers[1]) else [],
             ItemsOf(answers[0]),
             HopItems(hops, if hops == [] then [] else answers[1..]))
  }

  predicate Accepts(c: Cache, a: Ask, answers: seq<ConfigAnswer>) {
    Needed(c, a) && AllStamped(a, answers)
  }

  /** A material is held before anything is rebuilt from it, and the targets of paths
      it does not serve go only after every document has been rebuilt. */
  function Kept(c: Cache, m: Material, tail: Tail): Cache {
    Cache(Some(m), false,
          if tail.rebuilds then Some(m) else c.built,
          if tail.rebuilds && tail.syncs then Some(Served(m)) else c.synced)
  }

  /** One read, given the answers it got. */
  function ReadOf(c: Cache, a: Ask, answers: seq<ConfigAnswer>, tail: Tail): Cache {
    if Accepts(c, a, answers) then Kept(c, MaterialFrom(a, answers), tail) else c
  }

  /** What the read reports when an answer fails: a hop the panel no longer renders
      is no error, the next cycle reads again. */
  function ErrorOf(q: Question, x: ConfigAnswer): Option<ReadError> {
    if x.Failed? && !(q.HopNamed? && IsHopConflict(x.failure)) then Some(Panel(x.failure)) else None
  }

  /** A failure is reported unless it is a hop the panel no longer renders. */
  lemma ErrorsAre(q: Question, x: ConfigAnswer)
    ensures ErrorOf(q, x) == None <==>
            x.Configs? || (q.HopNamed? && x.failure.Api? && x.failure.status == 409 && x.failure.code in {"unknown_hop", "hop_not_joined"})
    ensures ErrorOf(q, x).Some? ==> ErrorOf(q, x) == Some(Panel(x.failure))
  {
  }

  function TailError(tail: Tail): Option<ReadError> {
    if !tail.rebuilds then Some(RebuildFailed) else if !tail.syncs then Some(SyncFailed) else None
  }

  /** Asking qs in order until a failure came back with `answers`. */
  ghost predicate Asked(qs: seq<Question>, at: nat, panel: (nat, Question) -> ConfigAnswer, answers: seq<ConfigAnswer>) {
    && |answers| <= |qs|
    && (forall i :: 0 <= i < |answers| ==> answers[i] == panel(at + i, qs[i]))
    && (forall i :: 0 <= i < |answers| - 1 ==> answers[i].Configs?)
    && (|answers| == |qs| || (answers != [] && answers[|answers| - 1].Failed?))
  }

  /** The same while every question so far was answered. */
  ghost predicate Answered(qs: seq<Question>, at: nat, panel: (nat, Question) -> ConfigAnswer, answers: seq<ConfigAnswer>) {
    |answers| <= |qs| && forall i :: 0 <= i < |answers| ==> answers[i] == panel(at + i, qs[i]) && answers[i].Configs?
  }

  lemma AnsweredMore(qs: seq<Question>, at: nat, panel: (nat, Question) -> ConfigAnswer, answers: seq<ConfigAnswer>, x: ConfigAnswer)
    requires Answered(qs, at, panel, answers) && |answers| < |qs| && x == panel(at + |answers|, qs[|answers|])
    ensures x.Configs? ==> Answered(qs, at, panel, answers + [x])
    ensures x.Failed? ==> Asked(qs, at, panel, answers + [x]) && Broken(answers + [x])
  {
  }

  lemma AnsweredAll(qs: seq<Question>, at: nat, panel: (nat, Question) -> ConfigAnswer, answers: seq<ConfigAnswer>)
    requires Answered(qs, at, panel, answers) && |answers| == |qs|
    ensures Asked(qs, at, panel, answers) && !Broken(answers)
  {
  }

  predicate Foreign(a: Ask, answers: seq<ConfigAnswer>) {
    exists x <- answers :: x.Configs? && x.revision != a.revision
  }

  predicate Broken(answers: seq<ConfigAnswer>) {
    answers != [] && answers[|answers| - 1].Failed?
  }

  lemma AskedAll(a: Ask, panel: (nat, Question) -> ConfigAnswer, answers: seq<ConfigAnswer>)
    requires Asked(Questions(a), 0, panel, answers)
    ensures AllStamped(a, answers) <==> !Broken(answers) && !Foreign(a, answers)
  {
    if Broken(answers) {
      assert answers[|answers| - 1] in answers;
    } else {
      assert |answers| == |Questions(a)|;
      forall i | 0 <= i < |answers| ensures answers[i].Configs? {
        assert i < |answers| - 1 || !answers[|answers| - 1].Failed?;
      }
    }
  }

  lemma AskedFirst(a: Ask, panel: (nat, Question) -> ConfigAnswer, first: ConfigAnswer, rest: seq<ConfigAnswer>)
    requires first == panel(0, DirectFor(a.host))
    ensures first.Failed? ==> Asked(Questions(a), 0, panel, [first])
    ensures first.Configs? && Asked(LaterQuestions(a), 1, panel, rest) ==> Asked(Questions(a), 0, panel, [first] + rest)
    ensures first.Configs? ==> (Broken([first] + rest) <==> Broken(rest))
    ensures first.Configs? ==> (Foreign(a, [first] + rest) <==> first.revision != a.revision || Foreign(a, rest))
  {
    if first.Configs? {
      if Asked(LaterQuestions(a), 1, panel, rest) {
        AskedCons(DirectFor(a.host), LaterQuestions(a), panel, first, rest);
      }
      ForeignCons(a, first, rest);
    }
  }

  lemma AskedCons(q: Question, qs: seq<Question>, panel: (nat, Question) -> ConfigAnswer, first: ConfigAnswer, rest: seq<ConfigAnswer>)
    requires first == panel(0, q) && first.Configs? && Asked(qs, 1, panel, rest)
    ensures Asked([q] + qs, 0, panel, [first] + rest)
  {
    var answers := [first] + rest;
    forall i | 0 <= i < |answers| ensures answers[i] == panel(i, ([q] + qs)[i]) {
      assert i == 0 || answers[i] == rest[i - 1];
    }
  }

  lemma ForeignCons(a: Ask, first: ConfigAnswer, rest: seq<ConfigAnswer>)
    requires first.Configs?
    ensures Foreign(a, [first] + rest) <==> first.revision != a.revision || Foreign(a, rest)
  {
    assert first in [first] + rest;
    assert forall x <- rest :: x in [first] + rest;
  }

  lemma ForeignStep(a: Ask, before: seq<ConfigAnswer>, x: ConfigAnswer)
    ensures Foreign(a, before + [x]) <==> Foreign(a, before) || (x.Configs? && x.revision != a.revision)
  {
    assert x in before + [x];
    assert forall y <- before :: y in before + [x];
  }

  lemma HopItemsStep(hops: seq<Hop>, i: nat, before: seq<ConfigAnswer>, x: ConfigAnswer)
    requires i < |hops| && |before| == i
    ensures HopItems(hops[..i + 1], before + [x]) == HopItems(hops[..i], before)[hops[i].Path() := ItemsOf(x)]
  {
    assert hops[..i + 1][..i] == hops[..i] && (before + [x])[..i] == before;
  }

  class Holder {
    var material: Option<Material>
    var stale: bool
    var built: Option<Material>
    var synced: Option<seq<Path>>

    ghost function Value(): Cache
      reads this
    {
      Cache(material, stale, built, synced)
    }

    constructor ()
      ensures Value() == NOTHING
    {
      material, stale, built, synced := None, false, None, None;
    }

    /** RefreshMaterial's first step. */
    method Invalidate()
      modifies this`stale
      ensures stale
    {
      stale := true;
    }

    /** The hop requests; `foreign` is whether some answer was stamped with another
        revision. */
    static method ReadHops(a: Ask, panel: (nat, Question) -> ConfigAnswer) returns (items: map<Path, seq<ProbeItem>>, foreign: bool, answers: seq<ConfigAnswer>)
      ensures Asked(HopQuestions(ProbedHops(a.chain)), 1, panel, answers)
      ensures !Broken(answers) ==> |answers| == |ProbedHops(a.chain)| && items == HopItems(ProbedHops(a.chain), answers)
      ensures foreign <==> Foreign(a, answers)
    {
      var hops := ListProbedHops(a.chain);
      ghost var questions := HopQuestions(hops);
      items, foreign, answers := map[], false, [];
      for i := 0 to |hops|
        invariant |answers| == i && Answered(questions, 1, panel, answers)
        invariant items == HopItems(hops[..i], answers)
        invariant foreign <==> Foreign(a, answers)
      {
        var x := panel(i + 1, HopNamed(hops[i].name));
        AnsweredMore(questions, 1, panel, answers, x);
        ForeignStep(a, answers, x);
        HopItemsStep(hops, i, answers, x);
        answers := answers + [x];
        if x.Failed? {
          return;
        }
        items := items[hops[i].Path() := x.items];
        if x.revision != a.revision {
          foreign := true;
        }
      }
      AnsweredAll(questions, 1, panel, answers);
      assert hops[..|hops|] == hops;
    }

    /** The requests after the direct one: the hops, or the proxy front. */
    static method ReadLater(a: Ask, panel: (nat, Question) -> ConfigAnswer)
      returns (hops: map<Path, seq<ProbeItem>>, proxy: seq<ProbeItem>, foreign: bool, answers: seq<ConfigAnswer>)
      ensures Asked(LaterQuestions(a), 1, panel, answers)
      ensures !Broken(answers) ==> |answers| == |LaterQuestions(a)|
      ensures !Broken(answers) ==> hops == HopItems(ProbedHops(a.chain), if ProbedHops(a.chain) == [] then [] else answers)
      ensures !Broken(answers) ==> proxy == if ProbedHops(a.chain) == [] && a.override then ItemsOf(answers[0]) else []
      ensures foreign <==> Foreign(a, answers)
    {
      hops, proxy, foreign, answers := map[], [], false, [];
      if ProbedHops(a.chain) != [] {
        hops, foreign, answers := ReadHops(a, panel);
      } else if a.override {
        var front := panel(1, ProxyFront);
        ForeignStep(a, [], front);
        assert [] + [front] == [front];
        answers := [front];
        if front.Configs? {
          proxy := front.items;
          foreign := front.revision != a.revision;
        }
      }
    }

    /** What follows an accepted read: the material is held, the documents are rebuilt
        and then the targets of the paths gone are removed. */
    method Keep(m: Material, tail: Tail) returns (error: Option<ReadError>)
      modifies this
      ensures Value() == Kept(old(Value()), m, tail)
      ensures error == TailError(tail)
    {
      material, stale := Some(m), false;
      if !tail.rebuilds {
        return Some(RebuildFailed);
      }
      built := Some(m);
      if !tail.syncs {
        return Some(SyncFailed);
      }
      synced := Some(Served(m));
      error := None;
    }

    /** readMaterial: `panel` answers each request as it likes.  Everything is read
        before anything is kept. */
    method Read(a: Ask, panel: (nat, Question) -> ConfigAnswer, tail: Tail)
      returns (accepted: bool, error: Option<ReadError>, ghost answers: seq<ConfigAnswer>)
      modifies this
      ensures if Needed(old(Value()), a) then Asked(Questions(a), 0, panel, answers) else answers == []
      ensures Value() == ReadOf(old(Value()), a, answers, tail)
      ensures accepted <==> Accepts(old(Value()), a, answers)
      ensures error == if accepted then TailError(tail)
                       else if Broken(answers) then ErrorOf(Questions(a)[|answers| - 1], answers[|answers| - 1]) else None
    {
      accepted, error, answers := false, None, [];
      var wanted := material == None || material.value.revision != a.revision || material.value.host != a.host || stale;
      if !wanted || a.host == "" {
        return;
      }
      var direct := panel(0, DirectFor(a.host));
      AskedFirst(a, panel, direct, []);
      answers := [direct];
      if direct.Failed? {
        AskedAll(a, panel, answers);
        return false, Some(Panel(direct.failure)), answers;
      }
      var hops, proxy, strange, later := ReadLater(a, panel);
      AskedFirst(a, panel, direct, later);
      answers := [direct] + later;
      AskedAll(a, panel, answers);
      if |later| > 0 && later[|later| - 1].Failed? {
        var failure := later[|later| - 1].failure;
        LastQuestion(a, later);
        return false, if ProbedHops(a.chain) != [] && IsHopConflict(failure) then None else Some(Panel(failure)), answers;
      }
      if direct.revision != a.revision || strange {
        return false, None, answers;
      }
      assert answers[1..] == later;
      error := Keep(Material(a.revision, a.host, a.override, a.chain, proxy, direct.items, hops), tail);
      accepted := true;
    }
  }

  lemma LastQuestion(a: Ask, later: seq<ConfigAnswer>)
    requires 0 < |later| <= |LaterQuestions(a)|
    ensures Questions(a)[|later|] == LaterQuestions(a)[|later| - 1]
    ensures LaterQuestions(a)[|later| - 1].HopNamed? <==> ProbedHops(a.chain) != []
  {
  }

  // ---- what a held material is ----

  /** The question a served path's items answer, if it is asked at all. */
  ghost predicate Asks(q: Question, a: Ask, p: Path) {
    || (q == DirectFor(a.host) && p == PATH_DIRECT)
    || (q == ProxyFront && p == PATH_PROXY)
    || (q.HopNamed? && exists h <- ProbedHops(a.chain) :: h.name == q.name && h.Path() == p)
  }

  lemma {:induction false} HopItemsAreAnswers(hops: seq<Hop>, answers: seq<ConfigAnswer>, p: Path)
    requires |answers| == |hops|
    ensures p in HopItems(hops, answers) <==> exists h <- hops :: h.Path() == p
    ensures p in HopItems(hops, answers) ==> exists i :: Gives(hops, answers, i, p, HopItems(hops, answers)[p])
  {
    if hops != [] {
      var n := |hops| - 1;
      assert hops == hops[..n] + [hops[n]];
      HopItemsAreAnswers(hops[..n], answers[..n], p);
      if p == hops[n].Path() {
        assert Gives(hops, answers, n, p, ItemsOf(answers[n]));
      } else if p in HopItems(hops, answers) {
        var items := HopItems(hops[..n], answers[..n])[p];
        var i: nat :| Gives(hops[..n], answers[..n], i, p, items);
        assert Gives(hops, answers, i, p, items);
      }
    }
  }

  ghost predicate Gives(hops: seq<Hop>, answers: seq<ConfigAnswer>, i: nat, p: Path, items: seq<ProbeItem>) {
    i < |hops| && i < |answers| && hops[i].Path() == p && items == ItemsOf(answers[i])
  }

  lemma HopPathsAreTheHops(m: Material, p: Path)
    ensures p in HopPaths(m) <==> exists h <- ProbedHops(m.chain) :: h.Path() == p
  {
    var hops := ProbedHops(m.chain);
    if p in HopPaths(m) {
      var i :| 0 <= i < |hops| && HopPaths(m)[i] == p;
      assert hops[i] in hops;
    }
    if h :| h in hops && h.Path() == p {
      var i :| 0 <= i < |hops| && hops[i] == h;
      assert HopPaths(m)[i] == p;
    }
  }

  /** The i-th request was p's own, and its answer is p's items under revision. */
  ghost predicate Source(a: Ask, answers: seq<ConfigAnswer>, i: nat, p: Path, items: seq<ProbeItem>) {
    i < |answers| && i < |Questions(a)| && Asks(Questions(a)[i], a, p) && answers[i] == Configs(a.revision, items)
  }

  lemma HopIsSourced(a: Ask, answers: seq<ConfigAnswer>, p: Path)
    requires AllStamped(a, answers) && p in MaterialFrom(a, answers).hops
    ensures exists i :: Source(a, answers, i, p, MaterialFrom(a, answers).hops[p])
  {
    var items := MaterialFrom(a, answers).hops[p];
    var hops := ProbedHops(a.chain);
    var named := if hops == [] then [] else answers[1..];
    HopItemsAreAnswers(hops, named, p);
    var i: nat :| Gives(hops, named, i, p, items);
    HopSource(a, answers, i, p, items);
  }

  lemma HopSource(a: Ask, answers: seq<ConfigAnswer>, i: nat, p: Path, items: seq<ProbeItem>)
    requires AllStamped(a, answers) && ProbedHops(a.chain) != [] && Gives(ProbedHops(a.chain), answers[1..], i, p, items)
    ensures Source(a, answers, i + 1, p, items)
  {
    var hop := ProbedHops(a.chain)[i];
    assert hop in ProbedHops(a.chain);
    assert answers[i + 1] in answers && answers[i + 1] == answers[1..][i];
    assert Questions(a)[i + 1] == HopNamed(hop.name);
    assert Asks(HopNamed(hop.name), a, p);
  }

  /** Some request was p's own, and its answer is what the material serves for p. */
  ghost predicate Sourced(a: Ask, answers: seq<ConfigAnswer>, p: Path)
    requires AllStamped(a, answers)
  {
    exists i :: Source(a, answers, i, p, Items(MaterialFrom(a, answers), p))
  }

  lemma DirectIsSourced(a: Ask, answers: seq<ConfigAnswer>)
    requires AllStamped(a, answers)
    ensures Sourced(a, answers, PATH_DIRECT)
  {
    assert answers[0] in answers;
    assert Source(a, answers, 0, PATH_DIRECT, Items(MaterialFrom(a, answers), PATH_DIRECT));
  }

  lemma ProxyIsSourced(a: Ask, answers: seq<ConfigAnswer>)
    requires AllStamped(a, answers) && ProbedHops(a.chain) == [] && a.override
    ensures Sourced(a, answers, PATH_PROXY)
  {
    assert answers[1] in answers;
    assert Source(a, answers, 1, PATH_PROXY, Items(MaterialFrom(a, answers), PATH_PROXY));
  }

  lemma NamedIsSourced(a: Ask, answers: seq<ConfigAnswer>, p: Path)
    requires AllStamped(a, answers) && p in HopPaths(MaterialFrom(a, answers)) && p != PATH_DIRECT && p != PATH_PROXY
    ensures Sourced(a, answers, p)
  {
    AcceptedHops(a, answers, p);
    HopIsSourced(a, answers, p);
    var i: nat :| Source(a, answers, i, p, MaterialFrom(a, answers).hops[p]);
    assert Source(a, answers, i, p, Items(MaterialFrom(a, answers), p));
  }

  /** Every item list of an accepted material is the answer to that path's own
      request, stamped with the material's own revision.  A served proxy has no list
      while the override is off. */
  lemma AcceptedIsCoherent(a: Ask, answers: seq<ConfigAnswer>, p: Path)
    requires AllStamped(a, answers)
    requires p in Served(MaterialFrom(a, answers)) && (p == PATH_PROXY ==> a.override)
    ensures MaterialFrom(a, answers).revision == a.revision && Sourced(a, answers, p)
  {
    ServedPaths(MaterialFrom(a, answers), p);
    if p == PATH_DIRECT {
      DirectIsSourced(a, answers);
    } else if p == PATH_PROXY {
      ProxyIsSourced(a, answers);
    } else {
      NamedIsSourced(a, answers, p);
    }
  }

  /** An accepted material holds one list per probed hop of its chain, and no other. */
  lemma AcceptedHops(a: Ask, answers: seq<ConfigAnswer>, p: Path)
    requires AllStamped(a, answers)
    ensures p in MaterialFrom(a, answers).hops <==> p in HopPaths(MaterialFrom(a, answers))
  {
    var hops := ProbedHops(a.chain);
    HopItemsAreAnswers(hops, if hops == [] then [] else answers[1..], p);
    HopPathsAreTheHops(MaterialFrom(a, answers), p);
  }

  /** Hop paths are never direct or proxy. */
  lemma ServedPaths(m: Material, p: Path)
    requires p in Served(m)
    ensures p == PATH_DIRECT || (p == PATH_PROXY && !Chained(m)) || (p in HopPaths(m) && p != PATH_PROXY)
  {
    if p in HopPaths(m) {
      HopPathsAreTheHops(m, p);
      var h :| h in ProbedHops(m.chain) && h.Path() == p;
      assert h.Probed();
      assert ':' in p && ':' !in PATH_PROXY;
    }
  }

  // ---- runs ----

  /** `Rebuilt` is a RebuildAll of its own, as saving a probe setting makes. */
  datatype Happening = Read(ask: Ask, answers: seq<ConfigAnswer>, tail: Tail) | Invalidated | Rebuilt(done: bool)

  function Next(c: Cache, h: Happening): Cache {
    match h
    case Read(a, answers, tail) => ReadOf(c, a, answers, tail)
    case Invalidated => c.(stale := true)
    case Rebuilt(done) => if done && c.material.Some? then c.(built := c.material) else c
  }

  function Run(run: seq<Happening>): Cache {
    if run == [] then NOTHING else Next(Run(run[..|run| - 1]), run[|run| - 1])
  }

  /** In every run the material held is exactly what one whole read brought: lists of
      two reads are never mixed. */
  lemma {:induction false} HeldIsOneRead(run: seq<Happening>)
    ensures var c := Run(run);
            c.material.Some? ==>
              exists k :: 0 <= k < |run| && run[k].Read? && AllStamped(run[k].ask, run[k].answers)
                          && c.material.value == MaterialFrom(run[k].ask, run[k].answers)
  {
    if run != [] {
      var init := run[..|run| - 1];
      HeldIsOneRead(init);
      if Run(run).material == Run(init).material && Run(init).material.Some? {
        var k :| 0 <= k < |init| && init[k].Read? && AllStamped(init[k].ask, init[k].answers)
                 && Run(init).material.value == MaterialFrom(init[k].ask, init[k].answers);
        assert run[k] == init[k];
      }
    }
  }

  /** Once invalidated, the cache stays stale until a read is accepted, and a stale
      cache never answers a cycle without asking. */
  lemma StaleUntilAccepted(c: Cache, h: Happening)
    requires c.stale
    ensures !Next(c, h).stale <==> h.Read? && h.ask.host != "" && AllStamped(h.ask, h.answers)
    ensures h.Read? && !Next(c, h).stale ==> Next(c, h).material == Some(MaterialFrom(h.ask, h.answers))
  {
  }

  // ---- what is built from the material ----

  /** Whether a rebuild has finished since the last accepted read. */
  function CaughtUp(run: seq<Happening>): bool {
    if run == [] then false
    else
      var init, last := run[..|run| - 1], run[|run| - 1];
      match last
      case Read(a, answers, tail) => if Accepts(Run(init), a, answers) then tail.rebuilds else CaughtUp(init)
      case Invalidated => CaughtUp(init)
      case Rebuilt(done) => (done && Run(init).material.Some?) || CaughtUp(init)
  }

  /** The targets removed last are those off the paths of a material that every
      document was built from at that time. */
  ghost predicate SyncedFrom(run: seq<Happening>, k: nat, served: seq<Path>) {
    k <= |run| && Run(run[..k]).built.Some? && Served(Run(run[..k]).built.value) == served
  }

  /** In every run the documents are those of the material held once a rebuild has
      finished since it was accepted. */
  lemma {:induction false} DocumentsFollowTheMaterial(run: seq<Happening>)
    ensures CaughtUp(run) ==> Run(run).material.Some? && Run(run).built == Run(run).material
  {
    if run != [] {
      DocumentsFollowTheMaterial(run[..|run| - 1]);
    }
  }

  /** In every run the paths kept last were those of documents already rebuilt. */
  lemma {:induction false} PathsFollowTheDocuments(run: seq<Happening>)
    ensures Run(run).synced.Some? ==> exists k :: SyncedFrom(run, k, Run(run).synced.value)
  {
    if Run(run).synced.Some? && run != [] {
      var init, served := run[..|run| - 1], Run(run).synced;
      if served == Run(init).synced {
        PathsFollowTheDocuments(init);
        var k: nat :| SyncedFrom(init, k, served.value);
        assert run[..k] == init[..k];
        assert SyncedFrom(run, k, served.value);
      } else {
        SyncIsFromBuilt(Run(init), run[|run| - 1]);
        assert run[..|run|] == run;
        assert SyncedFrom(run, |run|, served.value);
      }
    }
  }

  lemma SyncIsFromBuilt(c: Cache, h: Happening)
    requires Next(c, h).synced != c.synced
    ensures Next(c, h).built.Some? && Next(c, h).synced == Some(Served(Next(c, h).built.value))
  {
  }

  /** Reads that report the revision and host the material has. */
  ghost predicate Unmoved(c: Cache, cycles: seq<Happening>) {
    c.material.Some? && forall h <- cycles :: h.Read? && h.ask.revision == c.material.value.revision && h.ask.host == c.material.value.host
  }

  function After(c: Cache, run: seq<Happening>): Cache {
    if run == [] then c else Next(After(c, run[..|run| - 1]), run[|run| - 1])
  }

  lemma {:induction false} UnmovedReadsNothing(c: Cache, cycles: seq<Happening>)
    requires Unmoved(c, cycles) && !c.stale
    ensures After(c, cycles) == c
  {
    if cycles != [] {
      UnmovedReadsNothing(c, cycles[..|cycles| - 1]);
      assert cycles[|cycles| - 1] in cycles;
    }
  }

  /** A rebuild that fails after its material was accepted is not made up for: however
      many cycles follow under the same revision and host, the documents are the
      material's if and only if the rebuild worked, or they were its already. */
  lemma MissedRebuildStaysMissedIff(c: Cache, a: Ask, answers: seq<ConfigAnswer>, tail: Tail, cycles: seq<Happening>)
    requires Accepts(c, a, answers) && Unmoved(ReadOf(c, a, answers, tail), cycles)
    ensures var end := After(ReadOf(c, a, answers, tail), cycles);
            && end.material == Some(MaterialFrom(a, answers))
            && (end.built == end.material <==> tail.rebuilds || c.built == Some(MaterialFrom(a, answers)))
            && (!(tail.rebuilds && tail.syncs) ==> end.synced == c.synced)
  {
    UnmovedReadsNothing(ReadOf(c, a, answers, tail), cycles);
  }

  /** RefreshMaterial: invalidate, then read. */
  function Refreshed(c: Cache, a: Ask, answers: seq<ConfigAnswer>, tail: Tail): Cache {
    ReadOf(c.(stale := true), a, answers, tail)
  }

  /** Whether RefreshMaterial reports success. */
  predicate RefreshWorks(c: Cache, a: Ask, answers: seq<ConfigAnswer>, tail: Tail) {
    Accepts(c.(stale := true), a, answers) && TailError(tail) == None
  }

  /** A refresh that fails is taken up by a later cycle if and only if it accepted no
      material or the revision or the host has moved since: a failing rebuild or
      removal leaves a material that is not stale. */
  lemma FailedRefreshIsRetriedIff(c: Cache, a: Ask, answers: seq<ConfigAnswer>, tail: Tail, later: Ask)
    requires !RefreshWorks(c, a, answers, tail)
    ensures Needed(Refreshed(c, a, answers, tail), later) <==>
            later.host != "" && (a.host == "" || !AllStamped(a, answers) || later.revision != a.revision || later.host != a.host)
  {
  }

  const ASKED := Ask("r1", "real.host", false, None)
  const READ := [Configs("r1", [])]

  /** A refresh whose rebuild fails: the material is held, no rebuild from it has
      finished, and the next cycle asks for nothing. */
  lemma RebuildFailureIsForgotten()
    ensures var c := Run([Invalidated, Read(ASKED, READ, Tail(false, true))]);
            && c.material.Some? && !c.stale && c.built == None && !Needed(c, ASKED)
  {
    assert Questions(ASKED) == [DirectFor("real.host")];
    assert [Invalidated, Read(ASKED, READ, Tail(false, true))][..1] == [Invalidated];
    assert [Invalidated][..0] == [];
  }
}
