/** The entity graph of entity/entity.go: what merging an extraction adds, and why the
    order of extractions does not matter. */
module Entities {

  datatype Named = Named(name: string, typed: bool, described: bool)

  datatype Relating = Relating(source: string, target: string)

  datatype Extraction = Extraction(entities: seq<Named>, relations: seq<Relating>)

  /** The order-independent part of an entity: display name, type and description texts
      depend on arrival order, whether there are any does not. */
  datatype Entity = Entity(mentions: nat, chunks: multiset<string>, typed: bool, described: bool)

  type Key = (string, string)

  datatype Graph = Graph(entities: map<string, Entity>, relations: map<Key, nat>)

  /** norm, unicode.IsUpper somewhere in a name, and Go's order on strings. */
  datatype Lang = Lang(norm: string -> string, upper: string -> bool, before: (string, string) -> bool)

  const ZERO := Entity(0, multiset{}, false, false)

  function Plus(a: Entity, b: Entity): Entity {
    Entity(a.mentions + b.mentions, a.chunks + b.chunks, a.typed || b.typed, a.described || b.described)
  }

  // ---------- Clean ----------

  function NamesIn(l: Lang, ents: seq<Named>): set<string> {
    set e | e in ents && l.norm(e.name) != "" :: l.norm(e.name)
  }

  /** plausibleEndpoint. */
  predicate Plausible(l: Lang, name: string, named: set<string>) {
    l.norm(name) != "" && (l.norm(name) in named || l.upper(name))
  }

  function CleanRelations(l: Lang, rels: seq<Relating>, named: set<string>): seq<Relating> {
    if |rels| == 0 then []
    else
      var n := |rels| - 1;
      var rest, r := CleanRelations(l, rels[..n], named), rels[n];
      if Plausible(l, r.source, named) && Plausible(l, r.target, named) then rest + [r] else rest
  }

  function Clean(l: Lang, ex: Extraction): Extraction {
    Extraction(ex.entities, CleanRelations(l, ex.relations, NamesIn(l, ex.entities)))
  }

  lemma {:induction false} CleanKeeps(l: Lang, rels: seq<Relating>, named: set<string>)
    ensures forall r :: r in CleanRelations(l, rels, named) <==>
                        r in rels && Plausible(l, r.source, named) && Plausible(l, r.target, named)
  {
    hide Plausible;
    if |rels| > 0 {
      var n := |rels| - 1;
      CleanKeeps(l, rels[..n], named);
      assert rels == rels[..n] + [rels[n]];
    }
  }

  lemma {:induction false} CleanAll(l: Lang, rels: seq<Relating>, named: set<string>)
    requires forall r :: r in rels ==> Plausible(l, r.source, named) && Plausible(l, r.target, named)
    ensures CleanRelations(l, rels, named) == rels
  {
    hide Plausible;
    if |rels| > 0 {
      var n := |rels| - 1;
      assert rels == rels[..n] + [rels[n]];
      assert rels[n] in rels;
      assert forall r :: r in rels[..n] ==> r in rels;
      CleanAll(l, rels[..n], named);
    }
  }

  /** Cleaning twice is cleaning once. */
  lemma CleanTwice(l: Lang, ex: Extraction)
    ensures Clean(l, Clean(l, ex)) == Clean(l, ex)
  {
    var named := NamesIn(l, ex.entities);
    CleanKeeps(l, ex.relations, named);
    CleanAll(l, CleanRelations(l, ex.relations, named), named);
  }

  // ---------- what one extraction adds ----------

  /** How often a name is listed. */
  function Listed(l: Lang, ents: seq<Named>, name: string): nat {
    if |ents| == 0 then 0
    else Listed(l, ents[..|ents| - 1], name) + if l.norm(ents[|ents| - 1].name) == name then 1 else 0
  }

  /** The positions in the list with this name. */
  function Listings(l: Lang, ents: seq<Named>, name: string): set<nat> {
    set i: nat | i < |ents| && l.norm(ents[i].name) == name
  }

  lemma {:induction false} ListedCounts(l: Lang, ents: seq<Named>, name: string)
    ensures Listed(l, ents, name) == |Listings(l, ents, name)|
  {
    if |ents| > 0 {
      var n := |ents| - 1;
      ListedCounts(l, ents[..n], name);
      assert Listings(l, ents, name)
          == Listings(l, ents[..n], name) + if l.norm(ents[n].name) == name then {n} else {};
    }
  }

  ghost predicate Typed(l: Lang, ents: seq<Named>, name: string) { exists e :: e in ents && l.norm(e.name) == name && e.typed }

  ghost predicate Described(l: Lang, ents: seq<Named>, name: string) {
    exists e :: e in ents && l.norm(e.name) == name && e.described
  }

  /** A relation between two different entities. */
  predicate Joins(l: Lang, r: Relating) { l.norm(r.source) != l.norm(r.target) }

  predicate Touches(l: Lang, r: Relating, name: string) { l.norm(r.source) == name || l.norm(r.target) == name }

  ghost predicate Endpoint(l: Lang, rels: seq<Relating>, name: string) {
    exists r :: r in rels && Joins(l, r) && Touches(l, r, name)
  }

  /** Every name that an extraction makes an entity. */
  ghost function AllNames(l: Lang, ents: seq<Named>, rels: seq<Relating>): set<string> {
    NamesIn(l, ents) + (set r | r in rels :: l.norm(r.source)) + (set r | r in rels :: l.norm(r.target))
  }

  /** What one extraction of a chunk adds to one entity: a mention per listing, or one for
      an endpoint that was not listed; the chunk once. */
  ghost function Gain(l: Lang, chunk: string, ents: seq<Named>, rels: seq<Relating>, name: string): Entity {
    if name == "" then ZERO
    else
      var listed := Listed(l, ents, name);
      var cited := listed > 0 || Endpoint(l, rels, name);
      Entity(if listed == 0 && cited then 1 else listed,
             if cited && chunk != "" then multiset{chunk} else multiset{},
             Typed(l, ents, name), Described(l, ents, name))
  }

  function KeyOf(l: Lang, r: Relating): Key {
    var s, t := l.norm(r.source), l.norm(r.target);
    if l.before(t, s) then (t, s) else (s, t)
  }

  /** How many relations of an extraction have this key. */
  function Weight(l: Lang, rels: seq<Relating>, key: Key): nat {
    if |rels| == 0 then 0
    else
      Weight(l, rels[..|rels| - 1], key) +
      if Joins(l, rels[|rels| - 1]) && KeyOf(l, rels[|rels| - 1]) == key then 1 else 0
  }

  /** The positions of the relations between these two, in either direction. */
  function Relations(l: Lang, rels: seq<Relating>, a: string, b: string): set<nat> {
    set i: nat | i < |rels| && Links(l, rels[i], a, b)
  }

  predicate Links(l: Lang, r: Relating, a: string, b: string) {
    || (l.norm(r.source) == a && l.norm(r.target) == b)
    || (l.norm(r.source) == b && l.norm(r.target) == a)
  }

  /** A pair gains one for every relation between the two, whichever end is the source. */
  lemma {:induction false} WeightCounts(l: Lang, rels: seq<Relating>, a: string, b: string)
    requires l.before(a, b) && !l.before(b, a)
    ensures Weight(l, rels, (a, b)) == |Relations(l, rels, a, b)|
  {
    if |rels| > 0 {
      var n := |rels| - 1;
      WeightCounts(l, rels[..n], a, b);
      RelationsNext(l, rels, a, b);
      KeyIs(l, rels[n], a, b);
      hide Relations, Joins, KeyOf;
    }
  }

  lemma RelationsNext(l: Lang, rels: seq<Relating>, a: string, b: string)
    requires |rels| > 0
    ensures var n := |rels| - 1;
            |Relations(l, rels, a, b)| == |Relations(l, rels[..n], a, b)| + if Links(l, rels[n], a, b) then 1 else 0
  {
    var n := |rels| - 1;
    assert Relations(l, rels, a, b) == Relations(l, rels[..n], a, b) + if Links(l, rels[n], a, b) then {n} else {};
  }

  lemma KeyIs(l: Lang, r: Relating, a: string, b: string)
    requires l.before(a, b) && !l.before(b, a)
    ensures Links(l, r, a, b) <==> Joins(l, r) && KeyOf(l, r) == (a, b)
  {
  }

  /** What one extraction adds to a name, without the counting functions: a mention for
      every listing, one for a mere endpoint, the chunk once, type and description if any
      listing has them. */
  lemma GainMeans(l: Lang, chunk: string, ents: seq<Named>, rels: seq<Relating>, name: string)
    requires name != ""
    ensures var gain := Gain(l, chunk, ents, rels, name);
            var listings := Listings(l, ents, name);
            var related := exists i :: 0 <= i < |rels| && Joins(l, rels[i]) && Touches(l, rels[i], name);
            && gain.mentions == (if listings == {} && related then 1 else |listings|)
            && gain.chunks == (if chunk != "" && (listings != {} || related) then multiset{chunk} else multiset{})
            && (gain.typed <==> exists i :: i in listings && ents[i].typed)
            && (gain.described <==> exists i :: i in listings && ents[i].described)
  {
    ListedCounts(l, ents, name);
    hide Listed, Joins, Touches;
    if r :| r in rels && Joins(l, r) && Touches(l, r, name) {
      var i :| 0 <= i < |rels| && rels[i] == r;
    }
    if e :| e in ents && l.norm(e.name) == name && e.typed {
      var i :| 0 <= i < |ents| && ents[i] == e;
      assert i in Listings(l, ents, name);
    }
    if e :| e in ents && l.norm(e.name) == name && e.described {
      var i :| 0 <= i < |ents| && ents[i] == e;
      assert i in Listings(l, ents, name);
    }
    if |Listings(l, ents, name)| > 0 {
      assert Listings(l, ents, name) != {};
    }
  }

  function Keys(l: Lang, rels: seq<Relating>): set<Key> { set r | r in rels && Joins(l, r) :: KeyOf(l, r) }

  function Get(m: map<string, Entity>, name: string): Entity { if name in m then m[name] else ZERO }

  function GetWeight(m: map<Key, nat>, key: Key): nat { if key in m then m[key] else 0 }

  /** The graph after adding a cleaned extraction. */
  ghost function Effect(l: Lang, g: Graph, chunk: string, ents: seq<Named>, rels: seq<Relating>): Graph {
    Graph(map n | n in g.entities.Keys + AllNames(l, ents, rels) :: Plus(Get(g.entities, n), Gain(l, chunk, ents, rels, n)),
          map k | k in g.relations.Keys + Keys(l, rels) :: GetWeight(g.relations, k) + Weight(l, rels, k))
  }

  ghost function Added(l: Lang, g: Graph, chunk: string, ex: Extraction): Graph {
    Effect(l, g, chunk, Clean(l, ex).entities, Clean(l, ex).relations)
  }

  /** Add calls commute: names, mentions, chunks and weights do not depend on the order. */
  lemma AddsCommute(l: Lang, g: Graph, c1: string, e1: Extraction, c2: string, e2: Extraction)
    ensures Added(l, Added(l, g, c1, e1), c2, e2) == Added(l, Added(l, g, c2, e2), c1, e1)
  {
    var a, b := Clean(l, e1), Clean(l, e2);
    hide Clean;
    EffectsCommute(l, g, c1, a.entities, a.relations, c2, b.entities, b.relations);
  }

  lemma EffectsCommute(l: Lang, g: Graph, c1: string, n1: seq<Named>, r1: seq<Relating>,
                       c2: string, n2: seq<Named>, r2: seq<Relating>)
    ensures Effect(l, Effect(l, g, c1, n1, r1), c2, n2, r2) == Effect(l, Effect(l, g, c2, n2, r2), c1, n1, r1)
  {
    var ab, ba := Effect(l, Effect(l, g, c1, n1, r1), c2, n2, r2), Effect(l, Effect(l, g, c2, n2, r2), c1, n1, r1);
    EffectKeys(l, g, c1, n1, r1);
    EffectKeys(l, g, c2, n2, r2);
    EffectKeys(l, Effect(l, g, c1, n1, r1), c2, n2, r2);
    EffectKeys(l, Effect(l, g, c2, n2, r2), c1, n1, r1);
    hide Effect, Gain, Weight, AllNames, Keys, Plus;
    forall n | n in ab.entities ensures ab.entities[n] == ba.entities[n] {
      EffectGet(l, g, c1, n1, r1, n);
      EffectGet(l, g, c2, n2, r2, n);
      EffectGet(l, Effect(l, g, c1, n1, r1), c2, n2, r2, n);
      EffectGet(l, Effect(l, g, c2, n2, r2), c1, n1, r1, n);
      PlusCommutes(Get(g.entities, n), Gain(l, c1, n1, r1, n), Gain(l, c2, n2, r2, n));
    }
    forall k | k in ab.relations ensures ab.relations[k] == ba.relations[k] {
      EffectWeight(l, g, c1, n1, r1, k);
      EffectWeight(l, g, c2, n2, r2, k);
      EffectWeight(l, Effect(l, g, c1, n1, r1), c2, n2, r2, k);
      EffectWeight(l, Effect(l, g, c2, n2, r2), c1, n1, r1, k);
    }
    assert ab.entities == ba.entities && ab.relations == ba.relations;
  }

  lemma EffectKeys(l: Lang, g: Graph, chunk: string, ents: seq<Named>, rels: seq<Relating>)
    ensures Effect(l, g, chunk, ents, rels).entities.Keys == g.entities.Keys + AllNames(l, ents, rels)
    ensures Effect(l, g, chunk, ents, rels).relations.Keys == g.relations.Keys + Keys(l, rels)
  {
    hide AllNames, Keys, Gain, Weight, Plus;
  }

  /** Every entity, stored or not, gains exactly its gain. */
  lemma EffectGet(l: Lang, g: Graph, chunk: string, ents: seq<Named>, rels: seq<Relating>, n: string)
    ensures Get(Effect(l, g, chunk, ents, rels).entities, n) == Plus(Get(g.entities, n), Gain(l, chunk, ents, rels, n))
  {
    if n !in g.entities && n !in AllNames(l, ents, rels) {
      NoGain(l, chunk, ents, rels, n);
      PlusCommutes(ZERO, ZERO, ZERO);
    }
    hide Gain, AllNames, Plus;
  }

  lemma EffectWeight(l: Lang, g: Graph, chunk: string, ents: seq<Named>, rels: seq<Relating>, k: Key)
    ensures GetWeight(Effect(l, g, chunk, ents, rels).relations, k) == GetWeight(g.relations, k) + Weight(l, rels, k)
  {
    if k !in g.relations && k !in Keys(l, rels) {
      NoWeight(l, rels, k);
    }
    hide Weight, Keys;
  }

  lemma {:induction false} NoWeight(l: Lang, rels: seq<Relating>, k: Key)
    requires k !in Keys(l, rels)
    ensures Weight(l, rels, k) == 0
  {
    if |rels| > 0 {
      var n := |rels| - 1;
      assert rels[n] in rels;
      assert forall r :: r in rels[..n] ==> r in rels;
      NoWeight(l, rels[..n], k);
    }
  }

  lemma PlusCommutes(x: Entity, a: Entity, b: Entity)
    ensures Plus(Plus(x, a), b) == Plus(Plus(x, b), a)
    ensures Plus(ZERO, a) == a && Plus(a, ZERO) == a
  {
    assert x.chunks + a.chunks + b.chunks == x.chunks + b.chunks + a.chunks;
    assert multiset{} + a.chunks == a.chunks && a.chunks + multiset{} == a.chunks;
  }

  /** A name that an extraction does not make an entity gains nothing. */
  lemma NoGain(l: Lang, chunk: string, ents: seq<Named>, rels: seq<Relating>, n: string)
    requires n !in AllNames(l, ents, rels)
    ensures Gain(l, chunk, ents, rels, n) == ZERO
  {
    if n != "" {
      NotListed(l, ents, n);
    }
  }

  lemma {:induction false} NotListed(l: Lang, ents: seq<Named>, n: string)
    requires n !in NamesIn(l, ents) && n != ""
    ensures Listed(l, ents, n) == 0
  {
    if |ents| > 0 {
      var k := |ents| - 1;
      assert ents[k] in ents;
      assert forall e :: e in ents[..k] ==> e in ents;
      NotListed(l, ents[..k], n);
    }
  }

  // ---------- adding step by step ----------

  /** v is g plus what ents and rels add. */
  ghost predicate Grown(l: Lang, g: Graph, chunk: string, ents: seq<Named>, rels: seq<Relating>, v: Graph) {
    && v.entities.Keys == g.entities.Keys + AllNames(l, ents, rels)
    && v.relations.Keys == g.relations.Keys + Keys(l, rels)
    && (forall n :: Get(v.entities, n) == Plus(Get(g.entities, n), Gain(l, chunk, ents, rels, n)))
    && (forall k :: GetWeight(v.relations, k) == GetWeight(g.relations, k) + Weight(l, rels, k))
  }

  lemma GrownIsEffect(l: Lang, g: Graph, chunk: string, ents: seq<Named>, rels: seq<Relating>, v: Graph)
    requires Grown(l, g, chunk, ents, rels, v)
    ensures v == Effect(l, g, chunk, ents, rels)
  {
    var e := Effect(l, g, chunk, ents, rels);
    EffectKeys(l, g, chunk, ents, rels);
    hide Effect, Gain, Weight, AllNames, Keys, Plus;
    forall n | n in v.entities ensures v.entities[n] == e.entities[n] {
      EffectGet(l, g, chunk, ents, rels, n);
    }
    forall k | k in v.relations ensures v.relations[k] == e.relations[k] {
      EffectWeight(l, g, chunk, ents, rels, k);
    }
    assert v.entities == e.entities && v.relations == e.relations;
  }

  lemma GrownNothing(l: Lang, g: Graph, chunk: string)
    ensures Grown(l, g, chunk, [], [], g)
  {
    NothingNamed(l);
    forall n ensures Plus(Get(g.entities, n), Gain(l, chunk, [], [], n)) == Get(g.entities, n) {
      NothingGained(l, chunk, n);
      PlusCommutes(ZERO, Get(g.entities, n), ZERO);
    }
    hide Plus, Gain, AllNames, Keys, Weight, Get, GetWeight;
    assert g.entities.Keys + {} == g.entities.Keys && g.relations.Keys + {} == g.relations.Keys;
  }

  lemma NothingNamed(l: Lang)
    ensures AllNames(l, [], []) == {} && Keys(l, []) == {} && forall k :: Weight(l, [], k) == 0
  {
  }

  lemma NothingGained(l: Lang, chunk: string, n: string)
    ensures Gain(l, chunk, [], [], n) == ZERO
  {
  }

  /** A mention, with the chunk the first time. */
  function Mention(chunk: string, first: bool, typed: bool, described: bool): Entity {
    Entity(1, if first && chunk != "" then multiset{chunk} else multiset{}, typed, described)
  }

  lemma ListedNext(l: Lang, ents: seq<Named>, e: Named, n: string)
    ensures Listed(l, ents + [e], n) == Listed(l, ents, n) + if l.norm(e.name) == n then 1 else 0
    ensures Typed(l, ents + [e], n) == (Typed(l, ents, n) || (l.norm(e.name) == n && e.typed))
    ensures Described(l, ents + [e], n) == (Described(l, ents, n) || (l.norm(e.name) == n && e.described))
    ensures NamesIn(l, ents + [e]) == NamesIn(l, ents) + if l.norm(e.name) != "" then {l.norm(e.name)} else {}
  {
    var all := ents + [e];
    assert all[..|ents|] == ents;
    assert forall x :: x in all <==> x in ents || x == e;
    hide Listed;
    if l.norm(e.name) == n {
      assert e in all;
    }
  }

  lemma GainListed(l: Lang, chunk: string, ents: seq<Named>, e: Named, n: string)
    ensures Gain(l, chunk, ents + [e], [], n)
         == if n != "" && l.norm(e.name) == n
            then Plus(Gain(l, chunk, ents, [], n), Mention(chunk, Listed(l, ents, n) == 0, e.typed, e.described))
            else Gain(l, chunk, ents, [], n)
  {
    ListedNext(l, ents, e, n);
    hide Listed, Typed, Described;
  }

  /** One listed entity. */
  lemma GrownListed(l: Lang, g: Graph, chunk: string, ents: seq<Named>, e: Named, v: Graph)
    requires Grown(l, g, chunk, ents, [], v)
    ensures var n := l.norm(e.name);
            Grown(l, g, chunk, ents + [e], [],
                  if n == "" then v
                  else v.(entities := v.entities[n := Plus(Get(v.entities, n),
                                                          Mention(chunk, Listed(l, ents, n) == 0, e.typed, e.described))]))
  {
    var n := l.norm(e.name);
    ListedNext(l, ents, e, n);
    hide Gain, Plus, Mention, Weight, Keys, NamesIn, Listed;
    var w := if n == "" then v
             else v.(entities := v.entities[n := Plus(Get(v.entities, n), Mention(chunk, Listed(l, ents, n) == 0, e.typed, e.described))]);
    forall x ensures Get(w.entities, x) == Plus(Get(g.entities, x), Gain(l, chunk, ents + [e], [], x)) {
      GainListed(l, chunk, ents, e, x);
      PlusAssociates(Get(g.entities, x), Gain(l, chunk, ents, [], x), Mention(chunk, Listed(l, ents, x) == 0, e.typed, e.described));
    }
  }

  lemma PlusAssociates(a: Entity, b: Entity, c: Entity)
    ensures Plus(Plus(a, b), c) == Plus(a, Plus(b, c))
  {
    assert a.chunks + b.chunks + c.chunks == a.chunks + (b.chunks + c.chunks);
  }

  lemma EndpointNext(l: Lang, rels: seq<Relating>, r: Relating, n: string)
    ensures Endpoint(l, rels + [r], n) == (Endpoint(l, rels, n) || (Joins(l, r) && Touches(l, r, n)))
  {
    var all := rels + [r];
    assert forall x :: x in all <==> x in rels || x == r;
    assert r in all;
  }

  lemma NamesNext(l: Lang, ents: seq<Named>, rels: seq<Relating>, r: Relating)
    ensures AllNames(l, ents, rels + [r]) == AllNames(l, ents, rels) + {l.norm(r.source), l.norm(r.target)}
    ensures Keys(l, rels + [r]) == Keys(l, rels) + if Joins(l, r) then {KeyOf(l, r)} else {}
  {
    var all := rels + [r];
    assert forall x :: x in all <==> x in rels || x == r;
    hide KeyOf;
    assert (set x | x in all :: l.norm(x.source)) == (set x | x in rels :: l.norm(x.source)) + {l.norm(r.source)};
    assert (set x | x in all :: l.norm(x.target)) == (set x | x in rels :: l.norm(x.target)) + {l.norm(r.target)};
    assert r in all;
  }

  lemma WeightNext(l: Lang, rels: seq<Relating>, r: Relating, k: Key)
    ensures Weight(l, rels + [r], k) == Weight(l, rels, k) + if Joins(l, r) && KeyOf(l, r) == k then 1 else 0
  {
    assert (rels + [r])[..|rels|] == rels;
  }

  /** The entity was already mentioned by this extraction. */
  ghost predicate Cited(l: Lang, ents: seq<Named>, rels: seq<Relating>, n: string) {
    Listed(l, ents, n) > 0 || Endpoint(l, rels, n)
  }

  lemma GainRelated(l: Lang, chunk: string, ents: seq<Named>, rels: seq<Relating>, r: Relating, n: string)
    ensures Gain(l, chunk, ents, rels + [r], n)
         == if n != "" && Joins(l, r) && Touches(l, r, n) && !Cited(l, ents, rels, n)
            then Plus(Gain(l, chunk, ents, rels, n), Mention(chunk, true, false, false))
            else Gain(l, chunk, ents, rels, n)
  {
    EndpointNext(l, rels, r, n);
    if Listed(l, ents, n) == 0 {
      NotTyped(l, ents, n);
    }
    hide Endpoint, Listed, Typed, Described, Joins, Touches;
  }

  lemma {:induction false} NotTyped(l: Lang, ents: seq<Named>, n: string)
    requires Listed(l, ents, n) == 0
    ensures !Typed(l, ents, n) && !Described(l, ents, n)
  {
    if |ents| > 0 {
      var k := |ents| - 1;
      NotTyped(l, ents[..k], n);
      assert ents == ents[..k] + [ents[k]];
      ListedNext(l, ents[..k], ents[k], n);
    }
  }

  /** m with an entity for n, and a mention of it when it is its first in the extraction. */
  ghost function Touched(m: map<string, Entity>, n: string, chunk: string, mention: bool): map<string, Entity> {
    m[n := if mention then Plus(Get(m, n), Mention(chunk, true, false, false)) else Get(m, n)]
  }

  lemma TouchedGet(m: map<string, Entity>, n: string, chunk: string, mention: bool, x: string)
    ensures Get(Touched(m, n, chunk, mention), x)
         == if x == n && mention then Plus(Get(m, x), Mention(chunk, true, false, false)) else Get(m, x)
    ensures Touched(m, n, chunk, mention).Keys == m.Keys + {n}
  {
    hide Plus, Mention;
  }

  /** One relation: both endpoints exist, each is mentioned once, and the edge gains one. */
  ghost function Related(l: Lang, v: Graph, chunk: string, ents: seq<Named>, rels: seq<Relating>, r: Relating): Graph {
    var s, t := l.norm(r.source), l.norm(r.target);
    var both := Touched(Touched(v.entities, s, chunk, s != t && !Cited(l, ents, rels, s)), t, chunk, s != t && !Cited(l, ents, rels, t));
    Graph(both, if s == t then v.relations else v.relations[KeyOf(l, r) := GetWeight(v.relations, KeyOf(l, r)) + 1])
  }

  lemma GrownRelated(l: Lang, g: Graph, chunk: string, ents: seq<Named>, rels: seq<Relating>, r: Relating, v: Graph)
    requires Grown(l, g, chunk, ents, rels, v) && l.norm(r.source) != "" && l.norm(r.target) != ""
    ensures Grown(l, g, chunk, ents, rels + [r], Related(l, v, chunk, ents, rels, r))
  {
    NamesNext(l, ents, rels, r);
    RelatedKeys(l, v, chunk, ents, rels, r);
    hide Gain, Plus, Cited, Related, AllNames, Keys, KeyOf, Weight;
    forall x ensures Get(Related(l, v, chunk, ents, rels, r).entities, x)
                  == Plus(Get(g.entities, x), Gain(l, chunk, ents, rels + [r], x)) {
      RelatedEntity(l, g, chunk, ents, rels, r, v, x);
    }
    forall k ensures GetWeight(Related(l, v, chunk, ents, rels, r).relations, k)
                  == GetWeight(g.relations, k) + Weight(l, rels + [r], k) {
      RelatedWeight(l, g, chunk, ents, rels, r, v, k);
    }
  }

  lemma RelatedKeys(l: Lang, v: Graph, chunk: string, ents: seq<Named>, rels: seq<Relating>, r: Relating)
    ensures Related(l, v, chunk, ents, rels, r).entities.Keys == v.entities.Keys + {l.norm(r.source), l.norm(r.target)}
    ensures Related(l, v, chunk, ents, rels, r).relations.Keys == v.relations.Keys + if Joins(l, r) then {KeyOf(l, r)} else {}
  {
    var s, t := l.norm(r.source), l.norm(r.target);
    var first := Touched(v.entities, s, chunk, s != t && !Cited(l, ents, rels, s));
    TouchedGet(v.entities, s, chunk, s != t && !Cited(l, ents, rels, s), s);
    TouchedGet(first, t, chunk, s != t && !Cited(l, ents, rels, t), t);
    hide Touched, Cited, KeyOf, Get, GetWeight;
  }

  lemma RelatedEntity(l: Lang, g: Graph, chunk: string, ents: seq<Named>, rels: seq<Relating>, r: Relating, v: Graph, x: string)
    requires Get(v.entities, x) == Plus(Get(g.entities, x), Gain(l, chunk, ents, rels, x))
    requires l.norm(r.source) != "" && l.norm(r.target) != ""
    ensures Get(Related(l, v, chunk, ents, rels, r).entities, x)
         == Plus(Get(g.entities, x), Gain(l, chunk, ents, rels + [r], x))
  {
    var s, t := l.norm(r.source), l.norm(r.target);
    var first := Touched(v.entities, s, chunk, s != t && !Cited(l, ents, rels, s));
    GainRelated(l, chunk, ents, rels, r, x);
    TouchedGet(v.entities, s, chunk, s != t && !Cited(l, ents, rels, s), x);
    TouchedGet(first, t, chunk, s != t && !Cited(l, ents, rels, t), x);
    PlusAssociates(Get(g.entities, x), Gain(l, chunk, ents, rels, x), Mention(chunk, true, false, false));
    hide Gain, Plus, Mention, Cited, Touched, Get;
  }

  lemma RelatedWeight(l: Lang, g: Graph, chunk: string, ents: seq<Named>, rels: seq<Relating>, r: Relating, v: Graph, k: Key)
    requires GetWeight(v.relations, k) == GetWeight(g.relations, k) + Weight(l, rels, k)
    ensures GetWeight(Related(l, v, chunk, ents, rels, r).relations, k)
         == GetWeight(g.relations, k) + Weight(l, rels + [r], k)
  {
    WeightNext(l, rels, r, k);
    hide Weight, Touched, KeyOf;
  }
}
