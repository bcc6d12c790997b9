/** The mutable entity graph: Add, DropChunks and Prune of entity/entity.go and
    entity/canonical.go. */
module EntityGraphs {
  import opened Orders
  import opened Entities

  datatype Stored = Stored(mentions: nat, chunks: seq<string>, typed: bool, described: bool)

  function View(e: Stored): Entity { Entity(e.mentions, multiset(e.chunks), e.typed, e.described) }

  /** Naming an entity without mentioning it. */
  function Seen(typed: bool): Entity { Entity(0, multiset{}, typed, false) }

  lemma SeenAddsNothing(x: Entity)
    ensures Plus(x, Seen(false)) == x
  {
    assert x.chunks + multiset{} == x.chunks;
  }

  const NEW := Stored(0, [], false, false)

  function Fetch(m: map<string, Stored>, n: string): Stored { if n in m then m[n] else NEW }

  lemma FetchView(m: map<string, Stored>, n: string)
    ensures View(Fetch(m, n)) == Get(Views(m), n)
    ensures Views(m).Keys == m.Keys
  {
  }

  function Views(m: map<string, Stored>): map<string, Entity> { map n | n in m :: View(m[n]) }

  /** Every relation joins two present, distinct entities, the smaller name first. */
  ghost predicate Proper(l: Lang, entities: set<string>, relations: set<Key>) {
    forall k :: k in relations ==> k.0 in entities && k.1 in entities && k.0 != k.1 && !l.before(k.1, k.0)
  }

  lemma ViewsUpdate(m: map<string, Stored>, n: string, e: Stored)
    ensures Views(m[n := e]) == Views(m)[n := View(e)]
  {
    hide View;
  }

  /** Keeping some chunks, in order. */
  function Without(chunks: seq<string>, gone: set<string>): (r: seq<string>)
    ensures forall c :: c in r <==> c in chunks && c !in gone
  {
    if |chunks| == 0 then []
    else
      var n := |chunks| - 1;
      var rest := Without(chunks[..n], gone);
      assert chunks == chunks[..n] + [chunks[n]];
      if chunks[n] in gone then rest else rest + [chunks[n]]
  }

  method KeepChunks(chunks: seq<string>, gone: set<string>) returns (kept: seq<string>)
    ensures kept == Without(chunks, gone)
  {
    kept := [];
    for i := 0 to |chunks|
      invariant kept == Without(chunks[..i], gone)
    {
      assert chunks[..i + 1][..i] == chunks[..i];
      if chunks[i] !in gone {
        kept := kept + [chunks[i]];
      }
    }
    assert chunks[..|chunks|] == chunks;
  }

  function Trimmed(e: Stored, gone: set<string>): Stored { e.(chunks := Without(e.chunks, gone)) }

  /** The entities some remaining chunk mentions, without the chunks that are gone. */
  function Evidenced(m: map<string, Stored>, gone: set<string>): map<string, Stored> {
    map n | n in m && Without(m[n].chunks, gone) != [] :: Trimmed(m[n], gone)
  }

  /** The relations that touch no entity that was present and is gone. */
  function Between(rels: map<Key, nat>, now: set<string>, was: set<string>): map<Key, nat> {
    map k | k in rels && (k.0 in was ==> k.0 in now) && (k.1 in was ==> k.1 in now) :: rels[k]
  }

  lemma EvidencedIs(was: map<string, Stored>, gone: set<string>, now: map<string, Stored>, dead: set<string>)
    requires now == map n | n in was :: Trimmed(was[n], gone)
    requires dead == set n | n in was && Without(was[n].chunks, gone) == []
    ensures now - dead == Evidenced(was, gone) && (|dead| == 0 ==> now == Evidenced(was, gone))
    ensures was.Keys - Evidenced(was, gone).Keys == dead && was.Keys - dead == Evidenced(was, gone).Keys && dead <= was.Keys
  {
    hide Without, Trimmed;
    assert (now - dead).Keys == Evidenced(was, gone).Keys;
  }

  lemma BetweenIs(rels: map<Key, nat>, was: set<string>, dead: set<string>)
    requires dead <= was
    ensures (map k | k in rels && k.0 !in dead && k.1 !in dead :: rels[k]) == Between(rels, was - dead, was)
    ensures |dead| == 0 ==> Between(rels, was - dead, was) == rels
  {
  }

  function Noise(m: map<string, Stored>, generic: set<string>): set<string> {
    set n | n in m && (n == "" || n in generic)
  }

  function Specific(rels: map<Key, nat>, noise: set<string>): map<Key, nat> {
    map k | k in rels && k.0 !in noise && k.1 !in noise :: rels[k]
  }

  function Linked(rels: map<Key, nat>): set<string> {
    (set k | k in rels :: k.0) + (set k | k in rels :: k.1)
  }

  predicate IsGhost(e: Stored) { !e.typed && !e.described && e.mentions <= 1 }

  function PrunedEntities(m: map<string, Stored>, rels: map<Key, nat>, generic: set<string>): map<string, Stored> {
    var noise := Noise(m, generic);
    var linked := Linked(Specific(rels, noise));
    map n | n in m && n !in noise && (n in linked || !IsGhost(m[n])) :: m[n]
  }

  lemma NothingDropped(m: map<string, Stored>, rels: map<Key, nat>, generic: set<string>)
    requires var noise := Noise(m, generic);
             noise + (set n | n in m && n !in noise && n !in Linked(Specific(rels, noise)) && IsGhost(m[n])) == {}
    ensures PrunedEntities(m, rels, generic) == m
  {
    var noise := Noise(m, generic);
    var linked := Linked(Specific(rels, noise));
    hide IsGhost, Linked, Specific;
    forall n | n in m ensures n !in noise && (n in linked || !IsGhost(m[n])) {
      assert n !in noise + (set x | x in m && x !in noise && x !in linked && IsGhost(m[x]));
    }
  }

  /** Pruning twice is pruning once. */
  lemma PruneTwice(m: map<string, Stored>, rels: map<Key, nat>, generic: set<string>)
    ensures var m1, r1 := PrunedEntities(m, rels, generic), Specific(rels, Noise(m, generic));
            PrunedEntities(m1, r1, generic) == m1 && Specific(r1, Noise(m1, generic)) == r1
  {
    var m1, r1 := PrunedEntities(m, rels, generic), Specific(rels, Noise(m, generic));
    assert Noise(m1, generic) == {};
    assert Specific(r1, {}) == r1;
    hide IsGhost;
  }

  predicate IsSpecific(n: string, generic: set<string>) { n != "" && n !in generic }

  /** Exactly who survives: names that are neither blank nor generic and have a type, a
      description, a second mention, or a relation to such a name. Exactly the relations
      between such names survive, with their weights, and no entity changes. */
  lemma PruneKeepsExactly(l: Lang, m: map<string, Stored>, rels: map<Key, nat>, generic: set<string>)
    requires Proper(l, m.Keys, rels.Keys)
    ensures var m1 := PrunedEntities(m, rels, generic);
            && (forall n :: n in m1 <==>
                  && n in m && IsSpecific(n, generic)
                  && (m[n].typed || m[n].described || m[n].mentions >= 2
                      || exists k :: k in rels && (k.0 == n || k.1 == n) && IsSpecific(k.0, generic) && IsSpecific(k.1, generic)))
            && forall n :: n in m1 ==> m1[n] == m[n]
    ensures var r1 := Specific(rels, Noise(m, generic));
            && (forall k :: k in r1 <==> k in rels && IsSpecific(k.0, generic) && IsSpecific(k.1, generic))
            && forall k :: k in r1 ==> r1[k] == rels[k]
  {
    var noise := Noise(m, generic);
    var r1 := Specific(rels, noise);
    assert forall n :: n in m ==> (n in noise <==> !IsSpecific(n, generic));
    forall k | k in rels ensures k in r1 <==> IsSpecific(k.0, generic) && IsSpecific(k.1, generic) {
      assert k.0 in m && k.1 in m;
    }
    LinkedIs(r1);
    hide Specific, Linked, Noise, IsSpecific;
  }

  lemma LinkedIs(rels: map<Key, nat>)
    ensures forall n :: n in Linked(rels) <==> exists k :: k in rels && (k.0 == n || k.1 == n)
  {
  }

  /** Exactly who survives a drop of chunks: the entities some other chunk mentions, with
      those citations in order, and the relations between two such entities. */
  lemma DropKeepsExactly(l: Lang, m: map<string, Stored>, rels: map<Key, nat>, gone: set<string>)
    requires Proper(l, m.Keys, rels.Keys)
    ensures var m1 := Evidenced(m, gone);
            && (forall n :: n in m1 <==> n in m && exists c :: c in m[n].chunks && c !in gone)
            && forall n :: n in m1 ==>
                 && m1[n] == m[n].(chunks := m1[n].chunks)
                 && forall c :: multiset(m1[n].chunks)[c] == if c in gone then 0 else multiset(m[n].chunks)[c]
    ensures var m1 := Evidenced(m, gone); var r1 := Between(rels, m1.Keys, m.Keys);
            && (forall k :: k in r1 <==> k in rels && k.0 in m1 && k.1 in m1)
            && forall k :: k in r1 ==> r1[k] == rels[k]
  {
    forall n | n in m
      ensures forall c :: multiset(Without(m[n].chunks, gone))[c] == if c in gone then 0 else multiset(m[n].chunks)[c]
      ensures Without(m[n].chunks, gone) != [] <==> exists c :: c in m[n].chunks && c !in gone
    {
      WithoutCounts(m[n].chunks, gone);
      SomeLeft(m[n].chunks, gone);
    }
    hide Without;
  }

  lemma SomeLeft(chunks: seq<string>, gone: set<string>)
    ensures Without(chunks, gone) != [] <==> exists c :: c in chunks && c !in gone
  {
    var r := Without(chunks, gone);
    hide Without;
    if r != [] {
      assert r[0] in r;
    }
  }

  lemma {:induction false} WithoutCounts(chunks: seq<string>, gone: set<string>)
    ensures forall c :: multiset(Without(chunks, gone))[c] == if c in gone then 0 else multiset(chunks)[c]
  {
    if |chunks| > 0 {
      var n := |chunks| - 1;
      WithoutCounts(chunks[..n], gone);
      assert chunks == chunks[..n] + [chunks[n]];
    }
  }

  /** After pruning every relation still joins two present entities. */
  lemma PruneKeepsProper(l: Lang, m: map<string, Stored>, rels: map<Key, nat>, generic: set<string>)
    requires Proper(l, m.Keys, rels.Keys)
    ensures Proper(l, PrunedEntities(m, rels, generic).Keys, Specific(rels, Noise(m, generic)).Keys)
  {
    var r1 := Specific(rels, Noise(m, generic));
    hide IsGhost;
    forall k | k in r1 ensures k.0 in Linked(r1) && k.1 in Linked(r1) {
    }
  }

  /** After dropping chunks too; every entity left is mentioned by a chunk that is left,
      and none by one that is gone. */
  lemma DropKeepsProper(l: Lang, m: map<string, Stored>, rels: map<Key, nat>, gone: set<string>)
    requires Proper(l, m.Keys, rels.Keys)
    ensures var m1 := Evidenced(m, gone);
            && Proper(l, m1.Keys, Between(rels, m1.Keys, m.Keys).Keys)
            && forall n :: n in m1 ==> |m1[n].chunks| > 0 && forall c :: c in m1[n].chunks ==> c in m[n].chunks && c !in gone
  {
  }

  /** And after adding an extraction. */
  lemma AddKeepsProper(l: Lang, g: Graph, chunk: string, ex: Extraction)
    requires TotalOrder(l.before) && Proper(l, g.entities.Keys, g.relations.Keys)
    ensures var a := Added(l, g, chunk, ex); Proper(l, a.entities.Keys, a.relations.Keys)
  {
    var c := Clean(l, ex);
    EffectKeys(l, g, chunk, c.entities, c.relations);
    hide Clean, Effect;
    forall k | k in Keys(l, c.relations)
      ensures k.0 in AllNames(l, c.entities, c.relations) && k.1 in AllNames(l, c.entities, c.relations)
      ensures k.0 != k.1 && !l.before(k.1, k.0)
    {
      var r :| r in c.relations && Joins(l, r) && KeyOf(l, r) == k;
      var s, t := l.norm(r.source), l.norm(r.target);
      assert l.before(t, s) ==> !l.before(s, t);
    }
  }

  lemma CleanEnds(l: Lang, ex: Extraction)
    ensures forall r :: r in Clean(l, ex).relations ==> l.norm(r.source) != "" && l.norm(r.target) != ""
  {
    CleanKeeps(l, ex.relations, NamesIn(l, ex.entities));
  }

  lemma AddedIs(l: Lang, g: Graph, chunk: string, ex: Extraction)
    ensures Added(l, g, chunk, ex) == Effect(l, g, chunk, Clean(l, ex).entities, Clean(l, ex).relations)
  {
  }

  lemma NothingCited(l: Lang)
    ensures forall n :: !Cited(l, [], [], n)
  {
  }

  lemma CitedListed(l: Lang, ents: seq<Named>, e: Named)
    ensures forall n :: Cited(l, ents + [e], [], n) <==> Cited(l, ents, [], n) || n == l.norm(e.name)
    ensures forall n :: Cited(l, ents, [], n) <==> Listed(l, ents, n) > 0
  {
    forall n ensures Cited(l, ents + [e], [], n) <==> Cited(l, ents, [], n) || n == l.norm(e.name) {
      ListedNext(l, ents, e, n);
    }
    hide Listed;
  }

  lemma CitedRelated(l: Lang, ents: seq<Named>, rels: seq<Relating>, r: Relating)
    ensures forall n :: Cited(l, ents, rels + [r], n) <==> Cited(l, ents, rels, n) || (Joins(l, r) && Touches(l, r, n))
    ensures forall n :: Touches(l, r, n) <==> n in {l.norm(r.source), l.norm(r.target)}
  {
    forall n ensures Cited(l, ents, rels + [r], n) <==> Cited(l, ents, rels, n) || (Joins(l, r) && Touches(l, r, n)) {
      EndpointNext(l, rels, r, n);
    }
  }

  class EntityGraph {
    const lang: Lang
    var entities: map<string, Stored>
    var relations: map<Key, nat>

    ghost function Value(): Graph
      reads this
    {
      Graph(Views(entities), relations)
    }

    constructor (lang: Lang)
      ensures this.lang == lang && Value() == Graph(map[], map[])
    {
      this.lang := lang;
      entities, relations := map[], map[];
    }

    /** ensure: the entity for a name that is not blank; its type once known stays. */
    method Ensure(name: string, typed: bool) returns (c: string)
      modifies this`entities
      ensures c == lang.norm(name)
      ensures Views(entities) ==
              if c == "" then old(Views(entities))
              else old(Views(entities))[c := Plus(Get(old(Views(entities)), c), Seen(typed))]
      ensures c != "" ==> c in entities
    {
      c := lang.norm(name);
      if c == "" {
        return;
      }
      EnsureEntity(c, typed);
    }

    method EnsureEntity(c: string, typed: bool)
      modifies this`entities
      ensures Views(entities) == old(Views(entities))[c := Plus(Get(old(Views(entities)), c), Seen(typed))]
      ensures c in entities
    {
      hide *;
      var e := Fetch(entities, c);
      var now := e.(typed := e.typed || typed);
      EnsureView(e, typed);
      FetchView(entities, c);
      ViewsUpdate(entities, c, now);
      entities := entities[c := now];
    }

    lemma EnsureView(e: Stored, typed: bool)
      ensures View(e.(typed := e.typed || typed)) == Plus(View(e), Seen(typed))
    {
      assert multiset(e.chunks) + multiset{} == multiset(e.chunks);
    }

    /** Counting a mention of a stored entity. */
    method Mentioning(c: string, chunk: string, first: bool, described: bool)
      requires c in entities
      modifies this`entities
      ensures Views(entities) == old(Views(entities))[c := Plus(old(Views(entities))[c], Mention(chunk, first, false, described))]
      ensures entities.Keys == old(entities.Keys)
    {
      var e := entities[c];
      var chunks := if first && chunk != "" then e.chunks + [chunk] else e.chunks;
      var now := Stored(e.mentions + 1, chunks, e.typed, e.described || described);
      MentionView(e, now, chunk, first, described);
      FetchView(entities, c);
      ViewsUpdate(entities, c, now);
      assert Fetch(entities, c) == e;
      hide Views, View, Plus, Mention;
      entities := entities[c := now];
    }

    lemma MentionView(e: Stored, now: Stored, chunk: string, first: bool, described: bool)
      requires now == Stored(e.mentions + 1, if first && chunk != "" then e.chunks + [chunk] else e.chunks,
                             e.typed, e.described || described)
      ensures View(now) == Plus(View(e), Mention(chunk, first, false, described))
    {
      assert multiset(e.chunks) + multiset{} == multiset(e.chunks);
      assert multiset(e.chunks + [chunk]) == multiset(e.chunks) + multiset{chunk};
    }

    /** The loop body for one listed entity. */
    method AddListed(chunk: string, e: Named, mentioned: set<string>) returns (now: set<string>)
      modifies this`entities
      ensures var c := lang.norm(e.name); var m := old(Views(entities));
              && now == mentioned + (if c == "" then {} else {c})
              && Views(entities) == if c == "" then m else m[c := Plus(Get(m, c), Mention(chunk, c !in mentioned, e.typed, e.described))]
    {
      hide *;
      now := mentioned;
      ghost var m := Views(entities);
      var c := Ensure(e.name, e.typed);
      if c == "" {
        return;
      }
      Mentioning(c, chunk, c !in mentioned, e.described);
      ListedMap(m, c, chunk, c !in mentioned, e.typed, e.described);
      now := now + {c};
    }

    lemma ListedMap(m: map<string, Entity>, c: string, chunk: string, first: bool, typed: bool, described: bool)
      ensures var a := m[c := Plus(Get(m, c), Seen(typed))];
              a[c := Plus(a[c], Mention(chunk, first, false, described))]
              == m[c := Plus(Get(m, c), Mention(chunk, first, typed, described))]
    {
      TwoSteps(Get(m, c), chunk, first, typed, described);
      hide Plus, Mention, Seen;
    }

    lemma TwoSteps(x: Entity, chunk: string, first: bool, typed: bool, described: bool)
      ensures Plus(Plus(x, Seen(typed)), Mention(chunk, first, false, described))
           == Plus(x, Mention(chunk, first, typed, described))
    {
      assert x.chunks + multiset{} == x.chunks;
    }

    /** The loop body for one relation. */
    method AddRelation(chunk: string, r: Relating, mentioned: set<string>, ghost ents: seq<Named>, ghost rels: seq<Relating>)
      returns (now: set<string>)
      requires lang.norm(r.source) != "" && lang.norm(r.target) != ""
      requires forall n :: n != "" ==> (n in mentioned <==> Cited(lang, ents, rels, n))
      modifies this
      ensures Value() == Related(lang, old(Value()), chunk, ents, rels, r)
      ensures now == mentioned + if Joins(lang, r) then {lang.norm(r.source), lang.norm(r.target)} else {}
    {
      hide *;
      ValueIs();
      ghost var m, v := Views(entities), Value();
      var s, t := EnsureEnds(r);
      RelatedIs(lang, v, chunk, ents, rels, r);
      if s == t {
        TouchedNone(m, s, t, chunk);
        ValueIs();
        return mentioned;
      }
      now := MentionEnds(chunk, s, t, mentioned, m);
      CountEdge(KeyOf(lang, r));
      ValueIs();
    }

    lemma ValueIs()
      ensures Value() == Graph(Views(entities), relations)
    {
    }

    method MentionEnds(chunk: string, s: string, t: string, mentioned: set<string>, ghost m: map<string, Entity>)
      returns (now: set<string>)
      requires s in entities && t in entities && s != t && Views(entities) == WithBoth(m, s, t)
      modifies this`entities
      ensures now == mentioned + {s, t}
      ensures Views(entities) == Touched(Touched(m, s, chunk, s !in mentioned), t, chunk, t !in mentioned)
    {
      ghost var both := Views(entities);
      hide *;
      now := MentionEnd(chunk, s, mentioned);
      now := MentionEnd(chunk, t, now);
      TouchedBoth(m, both, Views(entities), s, t, chunk, s !in mentioned, t !in mentioned);
    }

    method CountEdge(key: Key)
      modifies this`relations
      ensures relations == old(relations)[key := GetWeight(old(relations), key) + 1]
    {
      relations := relations[key := (if key in relations then relations[key] else 0) + 1];
    }

    method EnsureEnds(r: Relating) returns (s: string, t: string)
      requires lang.norm(r.source) != "" && lang.norm(r.target) != ""
      modifies this`entities
      ensures s == lang.norm(r.source) && t == lang.norm(r.target) && s in entities && t in entities
      ensures Views(entities) == WithBoth(old(Views(entities)), s, t)
    {
      ghost var m := Views(entities);
      s := Ensure(r.source, false);
      ghost var a := Views(entities);
      FetchView(entities, s);
      t := Ensure(r.target, false);
      FetchView(entities, s);
      EnsureBoth(m, s, t);
    }

    method MentionEnd(chunk: string, c: string, mentioned: set<string>) returns (now: set<string>)
      requires c in entities
      modifies this`entities
      ensures now == mentioned + {c} && entities.Keys == old(entities.Keys)
      ensures var m := old(Views(entities));
              Views(entities) == if c in mentioned then m else m[c := Plus(m[c], Mention(chunk, true, false, false))]
    {
      now := mentioned;
      if c !in mentioned {
        now := now + {c};
        Mentioning(c, chunk, true, false);
      }
    }

    /** Add: one cleaned extraction. */
    method Add(chunk: string, ex: Extraction)
      modifies this
      ensures Value() == Added(lang, old(Value()), chunk, ex)
    {
      ghost var g := Value();
      var clean := Clean(lang, ex);
      CleanEnds(lang, ex);
      AddedIs(lang, g, chunk, ex);
      hide *;
      var mentioned := AddEntities(chunk, clean.entities);
      AddRelations(chunk, clean.relations, mentioned, g, clean.entities);
      GrownIsEffect(lang, g, chunk, clean.entities, clean.relations, Value());
    }

    method AddEntities(chunk: string, ents: seq<Named>) returns (mentioned: set<string>)
      modifies this`entities
      ensures Grown(lang, old(Value()), chunk, ents, [], Value())
      ensures forall n :: n != "" ==> (n in mentioned <==> Cited(lang, ents, [], n))
    {
      ghost var g := Value();
      mentioned := {};
      GrownNothing(lang, g, chunk);
      NothingCited(lang);
      hide *;
      assert ents[..0] == [];
      for i := 0 to |ents|
        invariant Grown(lang, g, chunk, ents[..i], [], Value())
        invariant forall n :: n != "" ==> (n in mentioned <==> Cited(lang, ents[..i], [], n))
      {
        assert ents[..i + 1] == ents[..i] + [ents[i]];
        ValueIs();
        GrownListed(lang, g, chunk, ents[..i], ents[i], Value());
        CitedListed(lang, ents[..i], ents[i]);
        ghost var v := Value();
        mentioned := AddListed(chunk, ents[i], mentioned);
        ValueIs();
      }
      assert ents[..|ents|] == ents;
    }

    method AddRelations(chunk: string, rels: seq<Relating>, start: set<string>, ghost g: Graph, ghost ents: seq<Named>)
      requires forall r :: r in rels ==> lang.norm(r.source) != "" && lang.norm(r.target) != ""
      requires Grown(lang, g, chunk, ents, [], Value())
      requires forall n :: n != "" ==> (n in start <==> Cited(lang, ents, [], n))
      modifies this
      ensures Grown(lang, g, chunk, ents, rels, Value())
    {
      var mentioned := start;
      hide *;
      assert rels[..0] == [];
      for j := 0 to |rels|
        invariant Grown(lang, g, chunk, ents, rels[..j], Value())
        invariant forall n :: n != "" ==> (n in mentioned <==> Cited(lang, ents, rels[..j], n))
      {
        assert rels[..j + 1] == rels[..j] + [rels[j]];
        assert rels[j] in rels;
        GrownRelated(lang, g, chunk, ents, rels[..j], rels[j], Value());
        CitedRelated(lang, ents, rels[..j], rels[j]);
        mentioned := AddRelation(chunk, rels[j], mentioned, ents, rels[..j]);
      }
      assert rels[..|rels|] == rels;
    }

    /** DropChunks: the chunks leave every entity, entities without a chunk go, and so do
        their relations. */
    method DropChunks(gone: set<string>) returns (dropped: nat)
      modifies this
      ensures gone == {} ==> entities == old(entities) && relations == old(relations) && dropped == 0
      ensures gone != {} ==>
                && entities == Evidenced(old(entities), gone)
                && relations == Between(old(relations), entities.Keys, old(entities.Keys))
                && dropped == |old(entities.Keys) - entities.Keys|
    {
      if |gone| == 0 {
        return 0;
      }
      ghost var was, rels := entities, relations;
      var dead := FilterChunks(gone);
      EvidencedIs(was, gone, entities, dead);
      BetweenIs(rels, was.Keys, dead);
      hide *;
      dropped := |dead|;
      if |dead| == 0 {
        return;
      }
      entities := entities - dead;
      DropRelations(dead);
    }

    method FilterChunks(gone: set<string>) returns (dead: set<string>)
      modifies this`entities
      ensures entities == map n | n in old(entities) :: Trimmed(old(entities)[n], gone)
      ensures dead == set n | n in old(entities) && Without(old(entities)[n].chunks, gone) == []
    {
      ghost var was := entities;
      dead := {};
      var left := entities.Keys;
      hide Without;
      while left != {}
        invariant left <= was.Keys == entities.Keys
        invariant forall n :: n in entities ==> entities[n] == if n in left then was[n] else Trimmed(was[n], gone)
        invariant dead == set n | n in was && n !in left && Without(was[n].chunks, gone) == []
        decreases |left|
      {
        ghost var some := MemberOf(left);
        var name: string :| name in left;
        var e := entities[name];
        var kept := KeepChunks(e.chunks, gone);
        entities := entities[name := e.(chunks := kept)];
        if |kept| == 0 {
          dead := dead + {name};
        }
        left := left - {name};
      }
    }

    method DropRelations(dead: set<string>)
      modifies this`relations
      ensures relations == map k | k in old(relations) && k.0 !in dead && k.1 !in dead :: old(relations)[k]
    {
      ghost var was := relations;
      var left := relations.Keys;
      while left != {}
        invariant left <= was.Keys
        invariant forall k :: k in relations <==> k in was && (k in left || (k.0 !in dead && k.1 !in dead))
        invariant forall k :: k in relations ==> relations[k] == was[k]
        decreases |left|
      {
        ghost var some := MemberOf(left);
        var key: Key :| key in left;
        if key.0 in dead || key.1 in dead {
          relations := relations - {key};
        }
        left := left - {key};
      }
    }

    /** Prune: generic names go first, with their relations; of what is left, entities that
        nothing links, types or describes and that were mentioned at most once. */
    method Prune(generic: set<string>)
      modifies this
      ensures entities == PrunedEntities(old(entities), old(relations), generic)
      ensures relations == Specific(old(relations), Noise(old(entities), generic))
    {
      ghost var was, rels := entities, relations;
      var noise := Noise(entities, generic);
      DropRelations(noise);
      assert relations == Specific(rels, noise);
      var linked := Linked(relations);
      var ghosts := set n | n in entities && n !in noise && n !in linked && IsGhost(entities[n]);
      var drop := noise + ghosts;
      if |drop| == 0 {
        NothingDropped(was, rels, generic);
        return;
      }
      entities := entities - drop;
      ghost var specific := relations;
      DropRelations(drop);
      assert relations == specific;
    }
  }

  ghost function WithBoth(m: map<string, Entity>, s: string, t: string): map<string, Entity> {
    var a := m[s := Get(m, s)];
    a[t := Get(a, t)]
  }

  lemma EnsureBoth(m: map<string, Entity>, s: string, t: string)
    ensures var a := m[s := Plus(Get(m, s), Seen(false))];
            a[t := Plus(Get(a, t), Seen(false))] == WithBoth(m, s, t)
  {
    SeenAddsNothing(Get(m, s));
    hide Plus, Seen;
    SeenAddsNothing(Get(m[s := Get(m, s)], t));
  }

  /** Related, with its conditions on equal endpoints resolved. */
  lemma RelatedIs(l: Lang, v: Graph, chunk: string, ents: seq<Named>, rels: seq<Relating>, r: Relating)
    ensures var s, t := l.norm(r.source), l.norm(r.target);
            && (Joins(l, r) <==> s != t)
            && (s == t ==>
                  (Related(l, v, chunk, ents, rels, r)
                   == Graph(Touched(Touched(v.entities, s, chunk, false), t, chunk, false), v.relations)))
            && (s != t ==>
                  (Related(l, v, chunk, ents, rels, r)
                   == Graph(Touched(Touched(v.entities, s, chunk, !Cited(l, ents, rels, s)), t, chunk, !Cited(l, ents, rels, t)),
                            v.relations[KeyOf(l, r) := GetWeight(v.relations, KeyOf(l, r)) + 1])))
  {
    hide Touched, Cited, KeyOf, GetWeight;
  }

  lemma TouchedNone(m: map<string, Entity>, s: string, t: string, chunk: string)
    ensures Touched(Touched(m, s, chunk, false), t, chunk, false) == WithBoth(m, s, t)
  {
  }

  lemma TouchedBoth(m: map<string, Entity>, both: map<string, Entity>, after: map<string, Entity>, s: string, t: string,
                    chunk: string, ms: bool, mt: bool)
    requires both == WithBoth(m, s, t) && s != t
    requires var a := if ms then both[s := Plus(both[s], Mention(chunk, true, false, false))] else both;
             after == if mt then a[t := Plus(a[t], Mention(chunk, true, false, false))] else a
    ensures after == Touched(Touched(m, s, chunk, ms), t, chunk, mt)
  {
    hide Plus, Mention;
  }
}
