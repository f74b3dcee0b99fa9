/** Cause resolution: turning the objects involved in an event into a
    root-first chain of causes, following projectile shooters, TNT sources,
    vehicle passengers, effect-cloud sources, creature targets, tameable
    owners and manually tracked parent causes. */
module Causes {
  import opened Base
  import opened GameTypes
  import opened Actors
  import HGMetadata
  import Entities

  /** The metadata key under which a parent cause is tracked. */
  const CAUSE_KEY: string := "worldguard.cause"

  /** The side table of tracked metadata, objects to objects. */
  type ParentTable = HGMetadata.Table<Id, Id>

  /** A resolved cause: the chain, root first, and whether attribution went
      through an indirect link. */
  datatype Cause = Cause(causes: seq<Actor>, indirect: bool)

  /** The cause that is not known. */
  const Unknown: Cause := Cause([], false)

  /** The state of a cause builder while it walks. */
  datatype Builder = Builder(causes: seq<Actor>, seen: set<Id>, indirect: bool)

  /** The expansion branch an object takes, chosen first-match in the order
      primed TNT, projectile, vehicle, effect cloud, creature with a target,
      tameable. */
  datatype Branch =
    | TntSource | ProjectileShooter | VehiclePassengers | CloudSource
    | CreatureTarget | TameableOwner | NoBranch

  /** True iff `link` refers to an object of the world (Java: is not null). */
  predicate Present(w: World, link: Option<Id>)
  {
    link.Some? && link.value in w
  }

  function BranchOf(w: World, b: Body): Branch
  {
    if Has(b, PrimedTntT) then TntSource
    else if Has(b, ProjectileT) then ProjectileShooter
    else if Has(b, VehicleT) then VehiclePassengers
    else if Has(b, AreaEffectCloudT) then CloudSource
    else if Has(b, CreatureT) && Present(w, b.entity.target) then CreatureTarget
    else if Has(b, TameableT) then TameableOwner
    else NoBranch
  }

  /** The objects an expansion branch hands back to the walk. */
  function Links(b: Body, br: Branch): seq<Option<Id>>
  {
    if !b.EntityBody? then []
    else match br
      case TntSource => [b.entity.source]
      case ProjectileShooter => [b.entity.shooter]
      case VehiclePassengers => b.entity.passengers
      case CloudSource => [b.entity.source]
      case CreatureTarget => [b.entity.target]
      case TameableOwner => [b.entity.owner]
      case NoBranch => []
  }

  /** The world objects an object's branch hands to the walk. */
  function LinkIds(w: World, b: Body): set<Id>
  {
    set l | l in w.Keys && Some(l) in Links(b, BranchOf(w, b))
  }

  /** The branches that make attribution indirect. */
  predicate MarksIndirect(br: Branch)
  {
    br == CloudSource || br == CreatureTarget || br == TameableOwner
  }

  // ---------------------------------------------------------------------
  // Manually tracked parent causes

  /** The tracked parent of `src`, if it has one that is a world object. */
  function ParentOf(w: World, meta: ParentTable, src: Id): (r: Option<Id>)
    ensures r.Some? ==> r.value in w && HGMetadata.Lookup(meta, src, CAUSE_KEY) == r
  {
    HGMetadata.GetIfPresent(meta, src, CAUSE_KEY, (p: Id) => p in w)
  }

  /** The tracked ancestors of `src`, oldest first. The walk goes on while
      the current object is trackable and has a parent; it stops at an object
      already visited, where the source would loop forever. */
  function Ancestors(w: World, meta: ParentTable, src: Id, walked: set<Id>): seq<Actor>
    decreases w.Keys - walked
  {
    if src !in w || !Trackable(w[src]) || src in walked then []
    else match ParentOf(w, meta, src)
      case None => []
      case Some(p) => Ancestors(w, meta, p, walked + {src}) + [Actor(p, w[p])]
  }

  /** The parent loop as written: every parent found is inserted at the same
      index `index` and added to `seen`, without a check against `seen`. */
  function InsertParents(w: World, meta: ParentTable, causes: seq<Actor>, index: nat,
                         src: Id, seen: set<Id>, walked: set<Id>): (r: (seq<Actor>, set<Id>))
    requires index <= |causes|
    ensures |causes| <= |r.0| && r.0[..index] == causes[..index]
    ensures seen <= r.1
    decreases w.Keys - walked
  {
    if src !in w || !Trackable(w[src]) || src in walked then (causes, seen)
    else match ParentOf(w, meta, src)
      case None => (causes, seen)
      case Some(p) =>
        var causes' := causes[..index] + [Actor(p, w[p])] + causes[index..];
        assert causes'[..index] == causes[..index];
        InsertParents(w, meta, causes', index, p, seen + {p}, walked + {src})
  }

  /** The ids of the objects in a chain. */
  function IdsOf(s: seq<Actor>): set<Id>
  {
    set a | a in s :: a.id
  }

  lemma IdsOfConcat(a: seq<Actor>, b: seq<Actor>)
    ensures IdsOf(a + b) == IdsOf(a) + IdsOf(b)
  {
    assert forall x :: x in a + b <==> x in a || x in b;
  }

  /** Inserting the parents one by one at a fixed index splices the whole
      ancestor list, oldest first, in at that index. */
  lemma {:induction false} InsertParentsSplicesAncestors(w: World, meta: ParentTable, causes: seq<Actor>,
                                                         index: nat, src: Id, seen: set<Id>, walked: set<Id>)
    requires index <= |causes|
    ensures InsertParents(w, meta, causes, index, src, seen, walked)
         == (causes[..index] + Ancestors(w, meta, src, walked) + causes[index..],
             seen + IdsOf(Ancestors(w, meta, src, walked)))
    decreases w.Keys - walked
  {
    if src !in w || !Trackable(w[src]) || src in walked {
      assert InsertParents(w, meta, causes, index, src, seen, walked) == (causes, seen);
      assert Ancestors(w, meta, src, walked) == [];
      assert causes == causes[..index] + [] + causes[index..];
      assert IdsOf([]) == {};
      assert seen + IdsOf(Ancestors(w, meta, src, walked)) == seen;
    } else {
      match ParentOf(w, meta, src)
      case None =>
        assert InsertParents(w, meta, causes, index, src, seen, walked) == (causes, seen);
        assert Ancestors(w, meta, src, walked) == [];
        assert causes == causes[..index] + [] + causes[index..];
        assert IdsOf([]) == {};
        assert seen + IdsOf(Ancestors(w, meta, src, walked)) == seen;
      case Some(p) =>
        var pa := Actor(p, w[p]);
        var causes' := causes[..index] + [pa] + causes[index..];
        InsertParentsSplicesAncestors(w, meta, causes', index, p, seen + {p}, walked + {src});
        var up := Ancestors(w, meta, p, walked + {src});
        assert causes'[..index] == causes[..index];
        assert causes'[index..] == [pa] + causes[index..];
        assert causes[..index] + up + ([pa] + causes[index..])
            == causes[..index] + (up + [pa]) + causes[index..];
        IdsOfConcat(up, [pa]);
        assert IdsOf([pa]) == {p};
        assert InsertParents(w, meta, causes, index, src, seen, walked)
            == InsertParents(w, meta, causes', index, p, seen + {p}, walked + {src});
        assert Ancestors(w, meta, src, walked) == up + [pa];
        assert seen + {p} + IdsOf(up) == seen + IdsOf(up + [pa]);
    }
  }

  /** No object has a tracked parent. */
  predicate NoManualParents(meta: ParentTable)
  {
    forall t :: t in meta ==> CAUSE_KEY !in meta[t]
  }

  lemma NoParentsNoAncestors(w: World, meta: ParentTable, src: Id, walked: set<Id>)
    requires NoManualParents(meta)
    ensures Ancestors(w, meta, src, walked) == []
  {
    assert ParentOf(w, meta, src) == None;
  }

  // ---------------------------------------------------------------------
  // The builder walk

  /** `r` extends `b`: the chain grows at its end, `seen` only grows and
      `indirect` is never reset. */
  predicate Extends(b: Builder, r: Builder)
  {
    |b.causes| <= |r.causes| && r.causes[..|b.causes|] == b.causes
    && b.seen <= r.seen && (b.indirect ==> r.indirect)
  }

  /** Every object the walk appended is a world object, shown as it is in
      the world, and is now seen. */
  predicate AppendedFromWorld(w: World, b: Builder, r: Builder)
    requires |b.causes| <= |r.causes|
  {
    forall i :: |b.causes| <= i < |r.causes| ==>
      r.causes[i].id in w && r.causes[i].body == w[r.causes[i].id] && r.causes[i].id in r.seen
  }

  /** Every object the walk newly marked as seen is a world object and was
      appended. */
  predicate SeenAppended(w: World, b: Builder, r: Builder)
    requires |b.causes| <= |r.causes|
  {
    r.seen - b.seen <= w.Keys && r.seen - b.seen <= IdsOf(r.causes[|b.causes|..])
  }

  /** The appended objects were unseen before and are pairwise distinct. */
  predicate AppendedOnce(b: Builder, r: Builder)
    requires |b.causes| <= |r.causes|
  {
    (forall i :: |b.causes| <= i < |r.causes| ==> r.causes[i].id !in b.seen)
    && (forall i, j :: |b.causes| <= i < j < |r.causes| ==> r.causes[i].id != r.causes[j].id)
  }

  /** `indirect` became true only if some newly seen object took an indirect
      branch. */
  predicate IndirectOnlyVia(w: World, b: Builder, r: Builder)
  {
    (forall x :: x in w && x in r.seen && x !in b.seen ==> !MarksIndirect(BranchOf(w, w[x])))
      ==> r.indirect == b.indirect
  }

  /** Every appended object that takes an indirect branch made `indirect` true. */
  predicate IndirectWhenMarked(w: World, b: Builder, r: Builder)
    requires |b.causes| <= |r.causes|
  {
    forall i :: |b.causes| <= i < |r.causes| && MarksIndirect(BranchOf(w, r.causes[i].body)) ==> r.indirect
  }

  /** A chain `z` extending `y` extending `x` splits its new part at `y`. */
  lemma SuffixSplit(x: seq<Actor>, y: seq<Actor>, z: seq<Actor>)
    requires |x| <= |y| <= |z| && y[..|x|] == x && z[..|y|] == y
    ensures z[|x|..] == y[|x|..] + z[|y|..]
    ensures z[..|x|] == x
  {
    assert z[..|x|] == z[..|y|][..|x|];
  }

  /** The builder's `addAll`: each element in turn, skipping nulls and
      objects already seen. A vehicle's passengers are handed over one call
      each in the source, which is the same as handing over the list. */
  function AddAll(w: World, meta: ParentTable, els: seq<Option<Id>>, b: Builder): (r: Builder)
    ensures Extends(b, r)
    ensures AppendedFromWorld(w, b, r)
    ensures SeenAppended(w, b, r)
    ensures IndirectOnlyVia(w, b, r)
    ensures forall k :: 0 <= k < |els| && Present(w, els[k]) ==> els[k].value in r.seen
    ensures NoManualParents(meta) ==> AppendedOnce(b, r) && IndirectWhenMarked(w, b, r)
    decreases w.Keys - b.seen, |els|
  {
    if els == [] then b
    else
      var b' := AddOne(w, meta, els[0], b);
      var r := AddAll(w, meta, els[1..], b');
      ComposeShape(w, b, b', r);
      ComposeSeen(w, b, b', r);
      ComposeIndirect(w, b, b', r);
      assert forall k :: 1 <= k < |els| ==> els[k] == els[1..][k - 1];
      if NoManualParents(meta) then ComposeOnce(w, b, b', r); r else r
  }

  /** Two steps that each extend the builder with world objects do so
      together. */
  lemma ComposeShape(w: World, b: Builder, b': Builder, r: Builder)
    requires Extends(b, b') && Extends(b', r)
    requires AppendedFromWorld(w, b, b') && AppendedFromWorld(w, b', r)
    ensures Extends(b, r) && AppendedFromWorld(w, b, r)
  {
    SuffixSplit(b.causes, b'.causes, r.causes);
    forall i | |b.causes| <= i < |r.causes|
      ensures r.causes[i].id in w && r.causes[i].body == w[r.causes[i].id] && r.causes[i].id in r.seen
    {
      if i < |b'.causes| { assert r.causes[i] == b'.causes[i]; }
    }
  }

  /** Two steps that each mark only appended world objects as seen do so
      together. */
  lemma ComposeSeen(w: World, b: Builder, b': Builder, r: Builder)
    requires Extends(b, b') && Extends(b', r)
    requires SeenAppended(w, b, b') && SeenAppended(w, b', r)
    ensures |b.causes| <= |r.causes| && SeenAppended(w, b, r)
  {
    SuffixSplit(b.causes, b'.causes, r.causes);
    IdsOfConcat(b'.causes[|b.causes|..], r.causes[|b'.causes|..]);
  }

  /** `indirect` set over two steps was set through an object one of them
      newly saw. */
  lemma ComposeIndirect(w: World, b: Builder, b': Builder, r: Builder)
    requires b.seen <= b'.seen <= r.seen
    requires IndirectOnlyVia(w, b, b') && IndirectOnlyVia(w, b', r)
    ensures IndirectOnlyVia(w, b, r)
  {
  }

  /** Objects appended once by each of two steps are appended once by both,
      and an indirect branch taken in either step leaves `indirect` set. */
  lemma ComposeOnce(w: World, b: Builder, b': Builder, r: Builder)
    requires Extends(b, b') && Extends(b', r)
    requires AppendedFromWorld(w, b, b')
    requires AppendedOnce(b, b') && AppendedOnce(b', r)
    requires IndirectWhenMarked(w, b, b') && IndirectWhenMarked(w, b', r)
    ensures |b.causes| <= |r.causes| && AppendedOnce(b, r) && IndirectWhenMarked(w, b, r)
  {
    SuffixSplit(b.causes, b'.causes, r.causes);
    forall i | |b.causes| <= i < |r.causes|
      ensures r.causes[i].id !in b.seen
    {
      if i < |b'.causes| { assert r.causes[i] == b'.causes[i]; }
    }
    forall i, j | |b.causes| <= i < j < |r.causes|
      ensures r.causes[i].id != r.causes[j].id
    {
      if j < |b'.causes| {
        assert r.causes[i] == b'.causes[i] && r.causes[j] == b'.causes[j];
      } else if i < |b'.causes| {
        assert r.causes[i] == b'.causes[i];
        assert r.causes[i].id in b'.seen;
      }
    }
    forall i | |b.causes| <= i < |r.causes| && MarksIndirect(BranchOf(w, r.causes[i].body))
      ensures r.indirect
    {
      if i < |b'.causes| { assert r.causes[i] == b'.causes[i]; }
    }
  }

  /** One element of `addAll`: skip it if null or seen; otherwise mark it
      seen, expand its one branch, splice in its tracked parents at the
      index reached after the expansion, and append it. */
  function AddOne(w: World, meta: ParentTable, o: Option<Id>, b: Builder): (r: Builder)
    ensures Extends(b, r)
    ensures AppendedFromWorld(w, b, r)
    ensures SeenAppended(w, b, r)
    ensures IndirectOnlyVia(w, b, r)
    ensures !Present(w, o) || o.value in b.seen ==> r == b
    ensures Present(w, o) ==> o.value in r.seen
    ensures Present(w, o) && o.value !in b.seen ==>
              |r.causes| > 0 && r.causes[|r.causes| - 1] == Actor(o.value, w[o.value])
    ensures NoManualParents(meta) ==> AppendedOnce(b, r) && IndirectWhenMarked(w, b, r)
    decreases w.Keys - b.seen, 0
  {
    if !Present(w, o) || o.value in b.seen then b
    else
      var id := o.value;
      var b2 := AddAll(w, meta, Links(w[id], BranchOf(w, w[id])), Marked(w, b, id));
      AppendSelfFacts(w, meta, b, b2, id);
      AppendSelf(w, meta, b2, id)
  }

  /** A new object's links that were not seen when its step began, other
      than itself, land in the chain before it. */
  lemma AddOneLinksBefore(w: World, meta: ParentTable, id: Id, b: Builder)
    requires id in w && id !in b.seen
    ensures |b.causes| <= |AddOne(w, meta, Some(id), b).causes|
    ensures LinksBefore(w, b, AddOne(w, meta, Some(id), b), id)
  {
    var els := Links(w[id], BranchOf(w, w[id]));
    var b2 := AddAll(w, meta, els, Marked(w, b, id));
    AppendSelfShape(w, meta, b2, id);
    assert AddOne(w, meta, Some(id), b) == AppendSelf(w, meta, b2, id);
    StepLinksBefore(w, b, b2, AppendSelf(w, meta, b2, id), id, els);
  }

  /** Every object that `id`'s branch hands back and that was not seen when
      the step began lands in the chain after what was there and before
      `id` itself. */
  predicate LinksBefore(w: World, b: Builder, r: Builder, id: Id)
    requires id in w && |b.causes| <= |r.causes|
  {
    forall l :: l in LinkIds(w, w[id]) && l !in b.seen && l != id ==>
      exists j :: |b.causes| <= j < |r.causes| - 1 && r.causes[j].id == l
  }

  /** The links of a step were all walked by its expansion, so the unseen
      ones were appended before the step's own object. */
  lemma StepLinksBefore(w: World, b: Builder, b2: Builder, r: Builder, id: Id, els: seq<Option<Id>>)
    requires id in w && els == Links(w[id], BranchOf(w, w[id]))
    requires Extends(Marked(w, b, id), b2) && SeenAppended(w, Marked(w, b, id), b2)
    requires forall k :: 0 <= k < |els| && Present(w, els[k]) ==> els[k].value in b2.seen
    requires |b2.causes| < |r.causes| && r.causes[..|b2.causes|] == b2.causes
    ensures |b.causes| <= |r.causes| && LinksBefore(w, b, r, id)
  {
    forall l | l in LinkIds(w, w[id]) && l !in b.seen && l != id
      ensures exists j :: |b.causes| <= j < |r.causes| - 1 && r.causes[j].id == l
    {
      var k :| 0 <= k < |els| && els[k] == Some(l);
      assert l in b2.seen && Marked(w, b, id).causes == b.causes;
      assert l in IdsOf(b2.causes[|b.causes|..]);
      var a :| a in b2.causes[|b.causes|..] && a.id == l;
      var m :| 0 <= m < |b2.causes[|b.causes|..]| && b2.causes[|b.causes|..][m] == a;
      var j := |b.causes| + m;
      assert r.causes[j] == r.causes[..|b2.causes|][j] == b2.causes[j];
    }
  }

  /** The builder once `id` is marked seen and its branch has been looked at. */
  function Marked(w: World, b: Builder, id: Id): Builder
    requires id in w
  {
    Builder(b.causes, b.seen + {id}, b.indirect || MarksIndirect(BranchOf(w, w[id])))
  }

  /** The tail of one `addAll` step once the expansion is done: the parent
      loop, then appending the object itself. */
  function AppendSelf(w: World, meta: ParentTable, b2: Builder, id: Id): Builder
    requires id in w
  {
    var ins := InsertParents(w, meta, b2.causes, |b2.causes|, id, b2.seen, {});
    Builder(ins.0 + [Actor(id, w[id])], ins.1, b2.indirect)
  }

  /** Once the expansion is done, the step appends the object's ancestors
      and then the object. */
  lemma AppendSelfShape(w: World, meta: ParentTable, b2: Builder, id: Id)
    requires id in w
    ensures AppendSelf(w, meta, b2, id)
         == Builder(b2.causes + (Ancestors(w, meta, id, {}) + [Actor(id, w[id])]),
                    b2.seen + IdsOf(Ancestors(w, meta, id, {})), b2.indirect)
  {
    InsertParentsSplicesAncestors(w, meta, b2.causes, |b2.causes|, id, b2.seen, {});
    assert b2.causes[..|b2.causes|] == b2.causes && b2.causes[|b2.causes|..] == [];
  }

  lemma AppendSelfFacts(w: World, meta: ParentTable, b: Builder, b2: Builder, id: Id)
    requires id in w && id !in b.seen
    requires Extends(Marked(w, b, id), b2)
    requires AppendedFromWorld(w, Marked(w, b, id), b2)
    requires SeenAppended(w, Marked(w, b, id), b2)
    requires IndirectOnlyVia(w, Marked(w, b, id), b2)
    requires NoManualParents(meta) ==> AppendedOnce(Marked(w, b, id), b2) && IndirectWhenMarked(w, Marked(w, b, id), b2)
    ensures Extends(b, AppendSelf(w, meta, b2, id))
    ensures AppendedFromWorld(w, b, AppendSelf(w, meta, b2, id))
    ensures SeenAppended(w, b, AppendSelf(w, meta, b2, id))
    ensures IndirectOnlyVia(w, b, AppendSelf(w, meta, b2, id))
    ensures id in AppendSelf(w, meta, b2, id).seen
    ensures AppendSelf(w, meta, b2, id).causes[|AppendSelf(w, meta, b2, id).causes| - 1] == Actor(id, w[id])
    ensures NoManualParents(meta) ==> AppendedOnce(b, AppendSelf(w, meta, b2, id)) && IndirectWhenMarked(w, b, AppendSelf(w, meta, b2, id))
  {
    AppendSelfShape(w, meta, b2, id);
    var anc := Ancestors(w, meta, id, {});
    AncestorsFromWorld(w, meta, id, {});
    var tail := anc + [Actor(id, w[id])];
    var r := Builder(b2.causes + tail, b2.seen + IdsOf(anc), b2.indirect);
    TailExtends(w, b, b2, id, anc, tail, r);
    TailSeen(w, b, b2, id, anc, tail, r);
    TailIndirect(w, b, b2, id, r);
    if NoManualParents(meta) {
      NoParentsNoAncestors(w, meta, id, {});
      OnceFacts(w, b, b2, id, r);
    }
  }

  /** The chain-shape facts of one step: it extends the builder, and every
      object it appends comes from the world and is seen. */
  lemma TailExtends(w: World, b: Builder, b2: Builder, id: Id, anc: seq<Actor>, tail: seq<Actor>, r: Builder)
    requires id in w && id !in b.seen
    requires Extends(Marked(w, b, id), b2)
    requires AppendedFromWorld(w, Marked(w, b, id), b2)
    requires forall i :: 0 <= i < |anc| ==> anc[i].id in w && anc[i].body == w[anc[i].id]
    requires tail == anc + [Actor(id, w[id])]
    requires r == Builder(b2.causes + tail, b2.seen + IdsOf(anc), b2.indirect)
    ensures Extends(b, r)
    ensures AppendedFromWorld(w, b, r)
    ensures id in r.seen
    ensures r.causes[|r.causes| - 1] == Actor(id, w[id])
  {
    SuffixSplit(b.causes, b2.causes, r.causes);
    forall i | |b.causes| <= i < |r.causes|
      ensures r.causes[i].id in w && r.causes[i].body == w[r.causes[i].id] && r.causes[i].id in r.seen
    {
      if i >= |b2.causes| {
        var k := i - |b2.causes|;
        assert r.causes[i] == tail[k];
        if k < |anc| {
          assert tail[k] == anc[k];
          assert anc[k] in anc;
        }
      } else {
        assert r.causes[i] == b2.causes[i];
      }
    }
  }

  /** What one step newly marks as seen lies in the world and was appended. */
  lemma TailSeen(w: World, b: Builder, b2: Builder, id: Id, anc: seq<Actor>, tail: seq<Actor>, r: Builder)
    requires id in w && id !in b.seen
    requires Extends(Marked(w, b, id), b2)
    requires SeenAppended(w, Marked(w, b, id), b2)
    requires forall i :: 0 <= i < |anc| ==> anc[i].id in w && anc[i].body == w[anc[i].id]
    requires tail == anc + [Actor(id, w[id])]
    requires r == Builder(b2.causes + tail, b2.seen + IdsOf(anc), b2.indirect)
    ensures |b.causes| <= |r.causes|
    ensures SeenAppended(w, b, r)
  {
    var b1 := Marked(w, b, id);
    var a := b2.causes[|b.causes|..];
    var appended := IdsOf(r.causes[|b.causes|..]);
    assert b2.seen - (b.seen + {id}) <= w.Keys && b2.seen - (b.seen + {id}) <= IdsOf(a) by {
      assert b1.causes == b.causes && b1.seen == b.seen + {id};
    }
    AppendedIds(b.causes, b2.causes, r.causes, anc, Actor(id, w[id]));
    IdsInWorld(w, anc);
    SeenSplit(b.seen, b.seen + {id}, b2.seen, IdsOf(anc), id, w.Keys, IdsOf(a), appended);
  }

  /** The ids one step appends: those of the expansion, the ancestors and
      the object itself. */
  lemma AppendedIds(x: seq<Actor>, y: seq<Actor>, z: seq<Actor>, anc: seq<Actor>, self: Actor)
    requires |x| <= |y| && y[..|x|] == x
    requires z == y + (anc + [self])
    ensures IdsOf(z[|x|..]) == IdsOf(y[|x|..]) + IdsOf(anc) + {self.id}
  {
    assert z[|x|..] == y[|x|..] + (anc + [self]);
    IdsOfConcat(y[|x|..], anc + [self]);
    IdsOfConcat(anc, [self]);
    assert IdsOf([self]) == {self.id};
  }

  /** The set algebra behind `TailSeen`. */
  lemma SeenSplit(s0: set<Id>, s1: set<Id>, s2: set<Id>, ancIds: set<Id>, id: Id,
                  keys: set<Id>, a: set<Id>, appended: set<Id>)
    requires s1 == s0 + {id} && id in keys
    requires s2 - s1 <= keys && s2 - s1 <= a
    requires ancIds <= keys
    requires appended == a + ancIds + {id}
    ensures (s2 + ancIds) - s0 <= keys
    ensures (s2 + ancIds) - s0 <= appended
  {
  }

  lemma IdsInWorld(w: World, s: seq<Actor>)
    requires forall i :: 0 <= i < |s| ==> s[i].id in w
    ensures IdsOf(s) <= w.Keys
  {
    forall x | x in IdsOf(s) ensures x in w {
      var a :| a in s && a.id == x;
      var i :| 0 <= i < |s| && s[i] == a;
    }
  }

  /** One step turns `indirect` on only through a newly seen object that
      takes an indirect branch. */
  lemma TailIndirect(w: World, b: Builder, b2: Builder, id: Id, r: Builder)
    requires id in w && id !in b.seen
    requires Extends(Marked(w, b, id), b2)
    requires IndirectOnlyVia(w, Marked(w, b, id), b2)
    requires b2.seen <= r.seen && r.indirect == b2.indirect
    ensures IndirectOnlyVia(w, b, r)
  {
    var b1 := Marked(w, b, id);
    if forall x :: x in w && x in r.seen && x !in b.seen ==> !MarksIndirect(BranchOf(w, w[x])) {
      assert id in r.seen;
      assert !MarksIndirect(BranchOf(w, w[id]));
      assert b1.indirect == b.indirect;
    }
  }

  lemma OnceFacts(w: World, b: Builder, b2: Builder, id: Id, r: Builder)
    requires id in w && id !in b.seen
    requires Extends(Marked(w, b, id), b2)
    requires AppendedFromWorld(w, Marked(w, b, id), b2)
    requires AppendedOnce(Marked(w, b, id), b2) && IndirectWhenMarked(w, Marked(w, b, id), b2)
    requires r == Builder(b2.causes + [Actor(id, w[id])], b2.seen, b2.indirect)
    ensures AppendedOnce(b, r) && IndirectWhenMarked(w, b, r)
  {
    var b1 := Marked(w, b, id);
    forall i | |b.causes| <= i < |r.causes|
      ensures r.causes[i].id !in b.seen
    {
      if i < |b2.causes| { assert r.causes[i] == b2.causes[i]; }
    }
    forall i, j | |b.causes| <= i < j < |r.causes|
      ensures r.causes[i].id != r.causes[j].id
    {
      if j < |b2.causes| {
        assert r.causes[i] == b2.causes[i] && r.causes[j] == b2.causes[j];
      } else {
        assert r.causes[i] == b2.causes[i];
      }
    }
    forall i | |b.causes| <= i < |r.causes| && MarksIndirect(BranchOf(w, r.causes[i].body))
      ensures r.indirect
    {
      if i < |b2.causes| { assert r.causes[i] == b2.causes[i]; }
    }
  }

  /** Every ancestor is a world object, shown as it is in the world. */
  lemma {:induction false} AncestorsFromWorld(w: World, meta: ParentTable, src: Id, walked: set<Id>)
    ensures forall i :: 0 <= i < |Ancestors(w, meta, src, walked)| ==>
              Ancestors(w, meta, src, walked)[i].id in w
              && Ancestors(w, meta, src, walked)[i].body == w[Ancestors(w, meta, src, walked)[i].id]
    decreases w.Keys - walked
  {
    if src !in w || !Trackable(w[src]) || src in walked {
    } else {
      match ParentOf(w, meta, src)
      case None =>
      case Some(p) =>
        AncestorsFromWorld(w, meta, p, walked + {src});
    }
  }

  // ---------------------------------------------------------------------
  // Building and querying causes

  /** The ids of a chain are pairwise distinct. */
  predicate DistinctIds(s: seq<Actor>)
  {
    forall i, j :: 0 <= i < j < |s| ==> s[i].id != s[j].id
  }

  /** `create`: a null argument array gives the unknown cause; otherwise
      the builder walks the given objects. */
  function Create(w: World, meta: ParentTable, objects: Option<seq<Option<Id>>>): (r: Cause)
    ensures objects.None? ==> r == Unknown
    ensures objects.Some? ==>
              forall k :: 0 <= k < |objects.value| && Present(w, objects.value[k]) ==>
                objects.value[k].value in IdsOf(r.causes)
    ensures forall i :: 0 <= i < |r.causes| ==> r.causes[i].id in w && r.causes[i].body == w[r.causes[i].id]
    ensures (forall i :: 0 <= i < |r.causes| ==> !MarksIndirect(BranchOf(w, r.causes[i].body))) ==> !r.indirect
    ensures NoManualParents(meta) ==> DistinctIds(r.causes)
    ensures NoManualParents(meta) ==>
              (r.indirect <==> exists i :: 0 <= i < |r.causes| && MarksIndirect(BranchOf(w, r.causes[i].body)))
    ensures NoManualParents(meta) ==>
              forall i :: 0 <= i < |r.causes| ==> LinkIds(w, r.causes[i].body) <= IdsOf(r.causes)
    ensures objects.Some? ==>
              forall s :: Closed(w, meta, s) && PresentWithin(w, objects.value, s) ==> IdsOf(r.causes) <= s
    ensures objects.Some? ==>
              (r.causes == [] <==> forall k :: 0 <= k < |objects.value| ==> !Present(w, objects.value[k]))
  {
    match objects
    case None => Unknown
    case Some(os) =>
      var b := AddAll(w, meta, os, Builder([], {}, false));
      BuiltFacts(w, meta, os, b);
      BuiltLinksClosed(w, meta, os, b);
      BuiltWithin(w, meta, os, b);
      Cause(b.causes, b.indirect)
  }

  /** What the walk from the empty builder gives `create`. */
  lemma BuiltFacts(w: World, meta: ParentTable, os: seq<Option<Id>>, b: Builder)
    requires b == AddAll(w, meta, os, Builder([], {}, false))
    ensures forall k :: 0 <= k < |os| && Present(w, os[k]) ==> os[k].value in IdsOf(b.causes)
    ensures forall i :: 0 <= i < |b.causes| ==> b.causes[i].id in w && b.causes[i].body == w[b.causes[i].id]
    ensures (forall i :: 0 <= i < |b.causes| ==> !MarksIndirect(BranchOf(w, b.causes[i].body))) ==> !b.indirect
    ensures NoManualParents(meta) ==> DistinctIds(b.causes)
    ensures NoManualParents(meta) ==>
              (b.indirect <==> exists i :: 0 <= i < |b.causes| && MarksIndirect(BranchOf(w, b.causes[i].body)))
  {
    assert b.causes[0..] == b.causes;
    assert forall x :: x in b.seen ==> x in IdsOf(b.causes);
    assert forall x :: x in IdsOf(b.causes) ==> exists i :: 0 <= i < |b.causes| && b.causes[i].id == x;
  }

  /** Without manual parents, the walk from the empty builder leaves every
      link of the chain in the chain. */
  lemma BuiltLinksClosed(w: World, meta: ParentTable, os: seq<Option<Id>>, b: Builder)
    requires b == AddAll(w, meta, os, Builder([], {}, false))
    ensures NoManualParents(meta) ==>
              forall i :: 0 <= i < |b.causes| ==> LinkIds(w, b.causes[i].body) <= IdsOf(b.causes)
  {
    if NoManualParents(meta) {
      AddAllFollows(w, meta, os, Builder([], {}, false));
      assert b.causes[0..] == b.causes;
    }
  }

  // ---------------------------------------------------------------------
  // Only what the inputs reach, in the inputs' order

  /** `s` is closed under the walk's steps: with each world object in it,
      `s` holds what that object's branch hands back and, when the object
      is trackable, its tracked parent. What the inputs reach is what lies
      in every closed set holding the present inputs. */
  predicate Closed(w: World, meta: ParentTable, s: set<Id>)
  {
    forall x :: x in s && x in w ==>
      LinkIds(w, w[x]) <= s
      && (Trackable(w[x]) && ParentOf(w, meta, x).Some? ==> ParentOf(w, meta, x).value in s)
  }

  /** Every present element lies in `s`. */
  predicate PresentWithin(w: World, els: seq<Option<Id>>, s: set<Id>)
  {
    forall k :: 0 <= k < |els| && Present(w, els[k]) ==> els[k].value in s
  }

  /** Every object the walk appended lies in `s`. */
  predicate AppendedWithin(b: Builder, r: Builder, s: set<Id>)
    requires |b.causes| <= |r.causes|
  {
    forall i :: |b.causes| <= i < |r.causes| ==> r.causes[i].id in s
  }

  /** The tracked ancestors of a member of a closed set stay in it. */
  lemma {:induction false} AncestorsWithin(w: World, meta: ParentTable, src: Id, walked: set<Id>, s: set<Id>)
    requires Closed(w, meta, s) && src in s
    ensures forall i :: 0 <= i < |Ancestors(w, meta, src, walked)| ==> Ancestors(w, meta, src, walked)[i].id in s
    decreases w.Keys - walked
  {
    if src in w && Trackable(w[src]) && src !in walked {
      match ParentOf(w, meta, src)
      case None =>
      case Some(p) =>
        AncestorsWithin(w, meta, p, walked + {src}, s);
    }
  }

  /** `addAll` appends only objects its elements reach. */
  lemma {:induction false} AddAllWithin(w: World, meta: ParentTable, els: seq<Option<Id>>, b: Builder, s: set<Id>)
    requires Closed(w, meta, s) && PresentWithin(w, els, s)
    ensures |b.causes| <= |AddAll(w, meta, els, b).causes|
    ensures AppendedWithin(b, AddAll(w, meta, els, b), s)
    decreases w.Keys - b.seen, |els|
  {
    if els != [] {
      var b' := AddOne(w, meta, els[0], b);
      var r := AddAll(w, meta, els[1..], b');
      AddOneWithin(w, meta, els[0], b, s);
      assert forall k :: 1 <= k < |els| ==> els[k] == els[1..][k - 1];
      AddAllWithin(w, meta, els[1..], b', s);
      SuffixSplit(b.causes, b'.causes, r.causes);
      forall i | |b.causes| <= i < |r.causes| ensures r.causes[i].id in s {
        if i < |b'.causes| { assert r.causes[i] == b'.causes[i]; }
      }
    }
  }

  /** One step appends only objects its element reaches: the expansion,
      the ancestors and the element itself. */
  lemma {:induction false} AddOneWithin(w: World, meta: ParentTable, o: Option<Id>, b: Builder, s: set<Id>)
    requires Closed(w, meta, s) && (Present(w, o) ==> o.value in s)
    ensures |b.causes| <= |AddOne(w, meta, o, b).causes|
    ensures AppendedWithin(b, AddOne(w, meta, o, b), s)
    decreases w.Keys - b.seen, 0
  {
    if Present(w, o) && o.value !in b.seen {
      var id := o.value;
      var b1 := Marked(w, b, id);
      var els := Links(w[id], BranchOf(w, w[id]));
      forall k | 0 <= k < |els| && Present(w, els[k]) ensures els[k].value in s {
        assert els[k].value in LinkIds(w, w[id]);
      }
      AddAllWithin(w, meta, els, b1, s);
      var b2 := AddAll(w, meta, els, b1);
      AppendSelfShape(w, meta, b2, id);
      var anc := Ancestors(w, meta, id, {});
      AncestorsWithin(w, meta, id, {}, s);
      AddOneUnseen(w, meta, id, b);
      var r := AddOne(w, meta, o, b);
      assert r.causes == b2.causes + (anc + [Actor(id, w[id])]);
      forall i | |b.causes| <= i < |r.causes| ensures r.causes[i].id in s {
        if i < |b2.causes| {
          assert r.causes[i] == b2.causes[i] && b1.causes == b.causes;
        } else if i - |b2.causes| < |anc| {
          assert r.causes[i] == anc[i - |b2.causes|];
        } else {
          assert r.causes[i] == Actor(id, w[id]);
        }
      }
    }
  }

  /** `addAll` over a concatenation walks the first part, then the second. */
  lemma {:induction false} AddAllConcat(w: World, meta: ParentTable, a: seq<Option<Id>>, c: seq<Option<Id>>, b: Builder)
    ensures AddAll(w, meta, a + c, b) == AddAll(w, meta, c, AddAll(w, meta, a, b))
    decreases |a|
  {
    if a == [] {
      assert a + c == c;
    } else {
      assert (a + c)[0] == a[0] && (a + c)[1..] == a[1..] + c;
      AddAllConcat(w, meta, a[1..], c, AddOne(w, meta, a[0], b));
    }
  }

  /** Elements that are all null or missing leave the builder as it was. */
  lemma {:induction false} AddAllAbsent(w: World, meta: ParentTable, els: seq<Option<Id>>, b: Builder)
    requires forall k :: 0 <= k < |els| ==> !Present(w, els[k])
    ensures AddAll(w, meta, els, b) == b
    decreases |els|
  {
    if els != [] {
      assert AddOne(w, meta, els[0], b) == b;
      assert forall k :: 1 <= k < |els| ==> els[k] == els[1..][k - 1];
      AddAllAbsent(w, meta, els[1..], b);
    }
  }

  /** What the walk from the empty builder holds lies in every closed set
      holding the present inputs, and it is empty exactly when no input is
      present. */
  lemma BuiltWithin(w: World, meta: ParentTable, os: seq<Option<Id>>, b: Builder)
    requires b == AddAll(w, meta, os, Builder([], {}, false))
    ensures forall s :: Closed(w, meta, s) && PresentWithin(w, os, s) ==> IdsOf(b.causes) <= s
    ensures (forall k :: 0 <= k < |os| ==> !Present(w, os[k])) ==> b.causes == []
  {
    var b0 := Builder([], {}, false);
    forall s | Closed(w, meta, s) && PresentWithin(w, os, s) ensures IdsOf(b.causes) <= s {
      AddAllWithin(w, meta, os, b0, s);
      forall x | x in IdsOf(b.causes) ensures x in s {
        var a :| a in b.causes && a.id == x;
        var i :| 0 <= i < |b.causes| && b.causes[i] == a;
      }
    }
    if forall k :: 0 <= k < |os| ==> !Present(w, os[k]) {
      AddAllAbsent(w, meta, os, b0);
    }
  }

  /** The root of `create`'s chain is reached from the first present input
      (Java: the first-most object is the initial initiator). */
  lemma CreateRootReached(w: World, meta: ParentTable, os: seq<Option<Id>>, k: nat, s: set<Id>)
    requires k < |os| && Present(w, os[k]) && forall j :: 0 <= j < k ==> !Present(w, os[j])
    requires Closed(w, meta, s) && os[k].value in s
    ensures |Create(w, meta, Some(os)).causes| > 0 && Create(w, meta, Some(os)).causes[0].id in s
  {
    WalkRootReached(w, meta, os, k, s, AddAll(w, meta, os, Builder([], {}, false)));
  }

  /** The walk behind `CreateRootReached`. */
  lemma WalkRootReached(w: World, meta: ParentTable, os: seq<Option<Id>>, k: nat, s: set<Id>, r: Builder)
    requires k < |os| && Present(w, os[k]) && forall j :: 0 <= j < k ==> !Present(w, os[j])
    requires Closed(w, meta, s) && os[k].value in s
    requires r == AddAll(w, meta, os, Builder([], {}, false))
    ensures |r.causes| > 0 && r.causes[0].id in s
  {
    var b0 := Builder([], {}, false);
    assert os == os[..k] + os[k..];
    AddAllConcat(w, meta, os[..k], os[k..], b0);
    AddAllAbsent(w, meta, os[..k], b0);
    var bo := AddOne(w, meta, os[k], b0);
    AddOneWithin(w, meta, os[k], b0, s);
    assert os[k..][0] == os[k];
    assert r == AddAll(w, meta, os[k..][1..], bo);
    assert r.causes[0] == r.causes[..|bo.causes|][0] == bo.causes[0];
  }

  /** `create` keeps the inputs' order: when a present input `os[k2]` is
      not reached from the inputs before it (a closed set holds those and
      not it), each of its places in the chain comes after an earlier
      present input `os[k1]`. */
  lemma CreateKeepsInputOrder(w: World, meta: ParentTable, os: seq<Option<Id>>, s: set<Id>, k1: nat, k2: nat)
    requires k1 < k2 < |os| && Present(w, os[k1]) && Present(w, os[k2])
    requires Closed(w, meta, s) && PresentWithin(w, os[..k2], s) && os[k2].value !in s
    ensures forall j :: 0 <= j < |Create(w, meta, Some(os)).causes| && Create(w, meta, Some(os)).causes[j].id == os[k2].value ==>
              exists i :: 0 <= i < j && Create(w, meta, Some(os)).causes[i].id == os[k1].value
  {
    WalkKeepsInputOrder(w, meta, os, s, k1, k2, AddAll(w, meta, os, Builder([], {}, false)));
  }

  /** The walk behind `CreateKeepsInputOrder`. */
  lemma WalkKeepsInputOrder(w: World, meta: ParentTable, os: seq<Option<Id>>, s: set<Id>, k1: nat, k2: nat, r: Builder)
    requires k1 < k2 < |os| && Present(w, os[k1]) && Present(w, os[k2])
    requires Closed(w, meta, s) && PresentWithin(w, os[..k2], s) && os[k2].value !in s
    requires r == AddAll(w, meta, os, Builder([], {}, false))
    ensures forall j :: 0 <= j < |r.causes| && r.causes[j].id == os[k2].value ==>
              exists i :: 0 <= i < j && r.causes[i].id == os[k1].value
  {
    var bk := AddAll(w, meta, os[..k2], Builder([], {}, false));
    WalkSplits(w, meta, os, k2, bk, r);
    AddAllWithin(w, meta, os[..k2], Builder([], {}, false), s);
    PrefixSeen(w, meta, os, k1, k2, bk);
    PrefixComesFirst(bk, r, s, os[k1].value, os[k2].value);
  }

  /** The walk over all inputs continues the walk over the first `k` of them. */
  lemma WalkSplits(w: World, meta: ParentTable, os: seq<Option<Id>>, k: nat, bk: Builder, r: Builder)
    requires k <= |os|
    requires bk == AddAll(w, meta, os[..k], Builder([], {}, false))
    requires r == AddAll(w, meta, os, Builder([], {}, false))
    ensures r == AddAll(w, meta, os[k..], bk)
  {
    assert os == os[..k] + os[k..];
    AddAllConcat(w, meta, os[..k], os[k..], Builder([], {}, false));
  }

  /** A present input among the first `k` is in the chain walked from them. */
  lemma PrefixSeen(w: World, meta: ParentTable, os: seq<Option<Id>>, k1: nat, k: nat, bk: Builder)
    requires k1 < k <= |os| && Present(w, os[k1])
    requires bk == AddAll(w, meta, os[..k], Builder([], {}, false))
    ensures os[k1].value in IdsOf(bk.causes)
  {
    assert os[..k][k1] == os[k1];
    assert bk.causes[0..] == bk.causes;
  }

  /** A chain extending `bk`, whose objects all lie in `s`, places an
      object outside `s` only after each object of `bk`. */
  lemma PrefixComesFirst(bk: Builder, r: Builder, s: set<Id>, x: Id, y: Id)
    requires |bk.causes| <= |r.causes| && r.causes[..|bk.causes|] == bk.causes
    requires forall i :: 0 <= i < |bk.causes| ==> bk.causes[i].id in s
    requires x in IdsOf(bk.causes) && y !in s
    ensures forall j :: 0 <= j < |r.causes| && r.causes[j].id == y ==> exists i :: 0 <= i < j && r.causes[i].id == x
  {
    var a :| a in bk.causes && a.id == x;
    var i :| 0 <= i < |bk.causes| && bk.causes[i] == a;
    forall j | 0 <= j < |bk.causes| ensures r.causes[j].id != y {
      assert r.causes[j] == bk.causes[j];
    }
    assert r.causes[i] == bk.causes[i];
  }

  /** Two plain objects resolve in the order given. */
  lemma PlainInputsInOrder(w: World, x: Id, y: Id)
    requires x in w && y in w && x != y
    requires BranchOf(w, w[x]) == NoBranch && BranchOf(w, w[y]) == NoBranch
    ensures Create(w, map[], Some([Some(x), Some(y)])) == Cause([Actor(x, w[x]), Actor(y, w[y])], false)
  {
    PlainWalk(w, x, y);
  }

  /** The walk behind `PlainInputsInOrder`. */
  lemma PlainWalk(w: World, x: Id, y: Id)
    requires x in w && y in w && x != y
    requires BranchOf(w, w[x]) == NoBranch && BranchOf(w, w[y]) == NoBranch
    ensures AddAll(w, map[], [Some(x), Some(y)], Builder([], {}, false))
         == Builder([Actor(x, w[x]), Actor(y, w[y])], {x, y}, false)
  {
    var b0 := Builder([], {}, false);
    assert ParentOf(w, map[], x).None? && ParentOf(w, map[], y).None?;
    AddOneLeaf(w, map[], x, b0);
    var b1 := AddOne(w, map[], Some(x), b0);
    AddOneLeaf(w, map[], y, b1);
    var b2 := AddOne(w, map[], Some(y), b1);
    assert [Some(x), Some(y)][1..] == [Some(y)];
    AddAllSingle(w, map[], Some(y), b1);
  }

  // ---------------------------------------------------------------------
  // Links are followed, and land before the objects that hand them back

  /** Every appended object's links have been seen. */
  predicate LinksSeen(w: World, b: Builder, r: Builder)
    requires |b.causes| <= |r.causes|
  {
    forall i :: |b.causes| <= i < |r.causes| ==> LinkIds(w, r.causes[i].body) <= r.seen
  }

  /** Without manual parents every object `addAll` appends was expanded, so
      its branch's links were walked. */
  lemma {:induction false} AddAllFollows(w: World, meta: ParentTable, els: seq<Option<Id>>, b: Builder)
    requires NoManualParents(meta)
    ensures |b.causes| <= |AddAll(w, meta, els, b).causes|
    ensures LinksSeen(w, b, AddAll(w, meta, els, b))
    decreases w.Keys - b.seen, |els|
  {
    if els != [] {
      var b' := AddOne(w, meta, els[0], b);
      var r := AddAll(w, meta, els[1..], b');
      AddOneFollows(w, meta, els[0], b);
      AddAllFollows(w, meta, els[1..], b');
      SuffixSplit(b.causes, b'.causes, r.causes);
      forall i | |b.causes| <= i < |r.causes|
        ensures LinkIds(w, r.causes[i].body) <= r.seen
      {
        if i < |b'.causes| { assert r.causes[i] == b'.causes[i]; }
      }
    }
  }

  lemma {:induction false} AddOneFollows(w: World, meta: ParentTable, o: Option<Id>, b: Builder)
    requires NoManualParents(meta)
    ensures |b.causes| <= |AddOne(w, meta, o, b).causes|
    ensures LinksSeen(w, b, AddOne(w, meta, o, b))
    decreases w.Keys - b.seen, 0
  {
    if Present(w, o) && o.value !in b.seen {
      var id := o.value;
      var b1 := Marked(w, b, id);
      var els := Links(w[id], BranchOf(w, w[id]));
      var b2 := AddAll(w, meta, els, b1);
      AddAllFollows(w, meta, els, b1);
      assert ParentOf(w, meta, id) == None;
      AppendUntracked(w, meta, b2, id);
      AddOneUnseen(w, meta, id, b);
      var r := AddOne(w, meta, o, b);
      assert r == Builder(b2.causes + [Actor(id, w[id])], b2.seen, b2.indirect);
      forall i | |b.causes| <= i < |r.causes|
        ensures LinkIds(w, r.causes[i].body) <= r.seen
      {
        if i < |b2.causes| {
          assert r.causes[i] == b2.causes[i];
        } else {
          forall l | l in LinkIds(w, w[id]) ensures l in b2.seen {
            var k :| 0 <= k < |els| && els[k] == Some(l);
          }
        }
      }
    }
  }

  /** A ranking of the world's objects under which every link leads to a
      lower rank; one exists exactly when no object reaches itself through
      branch links. */
  predicate Ranked(w: World, rank: Id -> nat)
  {
    forall x, l :: x in w && l in LinkIds(w, w[x]) ==> rank(l) < rank(x)
  }

  /** Every link of an appended object was seen before the walk began or
      was appended earlier by the walk. */
  predicate LinksEarlier(w: World, b: Builder, r: Builder)
    requires |b.causes| <= |r.causes|
  {
    forall i, l :: |b.causes| <= i < |r.causes| && l in LinkIds(w, r.causes[i].body) ==>
      l in b.seen || exists j :: |b.causes| <= j < i && r.causes[j].id == l
  }

  /** Every appended object ranks below `bound`. */
  predicate RanksBelow(rank: Id -> nat, b: Builder, r: Builder, bound: nat)
    requires |b.causes| <= |r.causes|
  {
    forall i :: |b.causes| <= i < |r.causes| ==> rank(r.causes[i].id) < bound
  }

  /** With acyclic links and no manual parents, `addAll` places every link
      of an appended object before it. */
  lemma {:induction false} AddAllRootFirst(w: World, meta: ParentTable, els: seq<Option<Id>>, b: Builder,
                                           rank: Id -> nat, bound: nat)
    requires NoManualParents(meta) && Ranked(w, rank)
    requires forall k :: 0 <= k < |els| && Present(w, els[k]) ==> rank(els[k].value) < bound
    ensures |b.causes| <= |AddAll(w, meta, els, b).causes|
    ensures RanksBelow(rank, b, AddAll(w, meta, els, b), bound)
    ensures LinksEarlier(w, b, AddAll(w, meta, els, b))
    decreases w.Keys - b.seen, |els|
  {
    if els != [] {
      var b' := AddOne(w, meta, els[0], b);
      var r := AddAll(w, meta, els[1..], b');
      AddOneRootFirst(w, meta, els[0], b, rank, bound);
      assert forall k :: 1 <= k < |els| ==> els[k] == els[1..][k - 1];
      AddAllRootFirst(w, meta, els[1..], b', rank, bound);
      ComposeEarlier(w, b, b', r, rank, bound);
    }
  }

  /** Two walks that each place links first and stay below a rank do so
      together. */
  lemma ComposeEarlier(w: World, b: Builder, b': Builder, r: Builder, rank: Id -> nat, bound: nat)
    requires Extends(b, b') && Extends(b', r) && SeenAppended(w, b, b')
    requires RanksBelow(rank, b, b', bound) && RanksBelow(rank, b', r, bound)
    requires LinksEarlier(w, b, b') && LinksEarlier(w, b', r)
    ensures |b.causes| <= |r.causes|
    ensures RanksBelow(rank, b, r, bound) && LinksEarlier(w, b, r)
  {
    SuffixSplit(b.causes, b'.causes, r.causes);
    forall i | |b.causes| <= i < |r.causes|
      ensures rank(r.causes[i].id) < bound
    {
      if i < |b'.causes| { assert r.causes[i] == b'.causes[i]; }
    }
    forall i, l | |b.causes| <= i < |r.causes| && l in LinkIds(w, r.causes[i].body)
      ensures l in b.seen || exists j :: |b.causes| <= j < i && r.causes[j].id == l
    {
      if i < |b'.causes| {
        assert r.causes[i] == b'.causes[i];
        if l !in b.seen {
          var j :| |b.causes| <= j < i && b'.causes[j].id == l;
          assert r.causes[j] == b'.causes[j];
        }
      } else if l in b'.seen && l !in b.seen {
        assert l in IdsOf(b'.causes[|b.causes|..]);
        var a :| a in b'.causes[|b.causes|..] && a.id == l;
        var m :| 0 <= m < |b'.causes[|b.causes|..]| && b'.causes[|b.causes|..][m] == a;
        assert r.causes[|b.causes| + m] == b'.causes[|b.causes| + m];
      }
    }
  }

  lemma {:induction false} AddOneRootFirst(w: World, meta: ParentTable, o: Option<Id>, b: Builder,
                                           rank: Id -> nat, bound: nat)
    requires NoManualParents(meta) && Ranked(w, rank)
    requires Present(w, o) ==> rank(o.value) < bound
    ensures |b.causes| <= |AddOne(w, meta, o, b).causes|
    ensures RanksBelow(rank, b, AddOne(w, meta, o, b), bound)
    ensures LinksEarlier(w, b, AddOne(w, meta, o, b))
    decreases w.Keys - b.seen, 0
  {
    if Present(w, o) && o.value !in b.seen {
      var id := o.value;
      var b1 := Marked(w, b, id);
      var els := Links(w[id], BranchOf(w, w[id]));
      forall k | 0 <= k < |els| && Present(w, els[k]) ensures rank(els[k].value) < rank(id) {
        assert els[k].value in LinkIds(w, w[id]);
      }
      AddAllRootFirst(w, meta, els, b1, rank, rank(id));
      var b2 := AddAll(w, meta, els, b1);
      assert ParentOf(w, meta, id) == None;
      AppendUntracked(w, meta, b2, id);
      AddOneUnseen(w, meta, id, b);
      var r := Builder(b2.causes + [Actor(id, w[id])], b2.seen, b2.indirect);
      assert AddOne(w, meta, o, b) == r;
      StepEarlier(w, b, b2, r, id, els, rank);
    }
  }

  /** The step facts behind `AddOneRootFirst`: the expansion stays below the
      object's rank, so no link it placed is the object itself. */
  lemma StepEarlier(w: World, b: Builder, b2: Builder, r: Builder, id: Id, els: seq<Option<Id>>, rank: Id -> nat)
    requires id in w && id !in b.seen && Ranked(w, rank)
    requires els == Links(w[id], BranchOf(w, w[id]))
    requires Extends(Marked(w, b, id), b2) && SeenAppended(w, Marked(w, b, id), b2)
    requires AppendedFromWorld(w, Marked(w, b, id), b2)
    requires forall k :: 0 <= k < |els| && Present(w, els[k]) ==> els[k].value in b2.seen
    requires RanksBelow(rank, Marked(w, b, id), b2, rank(id)) && LinksEarlier(w, Marked(w, b, id), b2)
    requires r == Builder(b2.causes + [Actor(id, w[id])], b2.seen, b2.indirect)
    ensures |b.causes| <= |r.causes|
    ensures RanksBelow(rank, b, r, rank(id) + 1) && LinksEarlier(w, b, r)
  {
    forall i, l | |b.causes| <= i < |r.causes| && l in LinkIds(w, r.causes[i].body)
      ensures l in b.seen || exists j :: |b.causes| <= j < i && r.causes[j].id == l
    {
      if i < |b2.causes| {
        EarlierInExpansion(w, b, b2, r, id, rank, i, l);
      } else {
        EarlierOwnLink(w, b, b2, r, id, els, l);
      }
    }
    forall i | |b.causes| <= i < |r.causes| ensures rank(r.causes[i].id) < rank(id) + 1 {
      if i < |b2.causes| { assert r.causes[i] == b2.causes[i]; }
    }
  }

  /** A link of an object the expansion appended was placed before it. */
  lemma EarlierInExpansion(w: World, b: Builder, b2: Builder, r: Builder, id: Id, rank: Id -> nat, i: nat, l: Id)
    requires id in w && Extends(Marked(w, b, id), b2) && AppendedFromWorld(w, Marked(w, b, id), b2)
    requires LinksEarlier(w, Marked(w, b, id), b2)
    requires r == Builder(b2.causes + [Actor(id, w[id])], b2.seen, b2.indirect)
    requires |b.causes| <= i < |b2.causes| && l in LinkIds(w, r.causes[i].body)
    ensures l in b.seen || l == id || exists j :: |b.causes| <= j < i && r.causes[j].id == l
  {
    assert r.causes[i] == b2.causes[i];
    if l !in b.seen && l != id {
      var m := Marked(w, b, id);
      assert m.causes == b.causes && l !in m.seen;
      assert l in LinkIds(w, b2.causes[i].body);
      var j :| |b.causes| <= j < i && b2.causes[j].id == l;
      assert r.causes[j] == b2.causes[j];
    }
  }

  /** A link of the step's own object, not seen before, was placed by the
      expansion. */
  lemma EarlierOwnLink(w: World, b: Builder, b2: Builder, r: Builder, id: Id, els: seq<Option<Id>>, l: Id)
    requires id in w && els == Links(w[id], BranchOf(w, w[id]))
    requires Extends(Marked(w, b, id), b2) && SeenAppended(w, Marked(w, b, id), b2)
    requires forall k :: 0 <= k < |els| && Present(w, els[k]) ==> els[k].value in b2.seen
    requires r == Builder(b2.causes + [Actor(id, w[id])], b2.seen, b2.indirect)
    requires l in LinkIds(w, w[id]) && l != id
    ensures l in b.seen || exists j :: |b.causes| <= j < |b2.causes| && r.causes[j].id == l
  {
    var k :| 0 <= k < |els| && els[k] == Some(l);
    if l !in b.seen {
      assert Marked(w, b, id).causes == b.causes;
      assert l in IdsOf(b2.causes[|b.causes|..]);
      var a :| a in b2.causes[|b.causes|..] && a.id == l;
      var m :| 0 <= m < |b2.causes[|b.causes|..]| && b2.causes[|b.causes|..][m] == a;
      assert r.causes[|b.causes| + m] == b2.causes[|b.causes| + m];
    }
  }


  /** A bound above the ranks of the given objects. */
  function RankBound(rank: Id -> nat, os: seq<Option<Id>>): (r: nat)
    ensures forall k :: 0 <= k < |os| && os[k].Some? ==> rank(os[k].value) < r
  {
    if os == [] then 0
    else
      var rest := RankBound(rank, os[1..]);
      assert forall k :: 1 <= k < |os| ==> os[k] == os[1..][k - 1];
      if os[0].Some? && rank(os[0].value) >= rest then rank(os[0].value) + 1 else rest
  }

  /** `create` lists causes root first: when no object reaches itself
      through branch links and no parents are tracked, every object's links
      come before it in the chain, so the root is handed back by no branch. */
  lemma CreateRootFirst(w: World, meta: ParentTable, objects: Option<seq<Option<Id>>>, rank: Id -> nat)
    requires NoManualParents(meta) && Ranked(w, rank)
    ensures forall i, l :: 0 <= i < |Create(w, meta, objects).causes| && l in LinkIds(w, Create(w, meta, objects).causes[i].body) ==>
              exists j :: 0 <= j < i && Create(w, meta, objects).causes[j].id == l
    ensures |Create(w, meta, objects).causes| > 0 ==> LinkIds(w, Create(w, meta, objects).causes[0].body) == {}
  {
    if objects.Some? {
      var b0 := Builder([], {}, false);
      AddAllRootFirst(w, meta, objects.value, b0, rank, RankBound(rank, objects.value));
    }
  }

  /** The first index whose object satisfies `p`, if any. */
  function FirstIndex(s: seq<Actor>, p: Body -> bool): (r: Option<nat>)
    ensures r.Some? ==> r.value < |s| && p(s[r.value].body) && forall j :: 0 <= j < r.value ==> !p(s[j].body)
    ensures r.None? ==> forall j :: 0 <= j < |s| ==> !p(s[j].body)
  {
    if |s| == 0 then None
    else if p(s[0].body) then Some(0)
    else match FirstIndex(s[1..], p)
      case None => None
      case Some(i) => Some(i + 1)
  }

  /** `r` is the first object of `s` that satisfies `p`, or nothing if no
      object does. */
  predicate IsFirst(s: seq<Actor>, p: Body -> bool, r: Option<Actor>)
  {
    (r.None? <==> forall j :: 0 <= j < |s| ==> !p(s[j].body))
    && (r.Some? ==> exists i :: 0 <= i < |s| && s[i] == r.value && p(s[i].body)
                               && forall j :: 0 <= j < i ==> !p(s[j].body))
  }

  function FirstWhere(c: Cause, p: Body -> bool): (r: Option<Actor>)
    ensures IsFirst(c.causes, p, r)
  {
    match FirstIndex(c.causes, p)
    case None => None
    case Some(i) => Some(c.causes[i])
  }

  /** Primed TNT and vehicles are not root causes. */
  predicate Inert(b: Body)
  {
    Has(b, PrimedTntT) || Has(b, VehicleT)
  }

  /** `isKnown`: the chain holds at least one object that is neither primed
      TNT nor a vehicle. (So an empty chain is not known.) */
  function IsKnown(c: Cause): (r: bool)
    ensures r <==> exists i :: 0 <= i < |c.causes| && !Inert(c.causes[i].body)
  {
    if |c.causes| == 0 then false
    else
      var f := FirstIndex(c.causes, (b: Body) => !Inert(b));
      f.Some?
  }

  function GetRootCause(c: Cause): (r: Option<Actor>)
    ensures r.None? <==> c.causes == []
    ensures r.Some? ==> r.value == c.causes[0]
  {
    if |c.causes| > 0 then Some(c.causes[0]) else None
  }

  function GetFirstPlayer(c: Cause): (r: Option<Actor>)
    ensures IsFirst(c.causes, IsPlayer, r)
  {
    FirstWhere(c, IsPlayer)
  }

  function GetFirstEntity(c: Cause): (r: Option<Actor>)
    ensures IsFirst(c.causes, IsEntity, r)
  {
    FirstWhere(c, IsEntity)
  }

  predicate IsNonPlayerEntity(b: Body)
  {
    IsEntity(b) && !IsPlayer(b)
  }

  function GetFirstNonPlayerEntity(c: Cause): (r: Option<Actor>)
    ensures IsFirst(c.causes, IsNonPlayerEntity, r)
  {
    FirstWhere(c, IsNonPlayerEntity)
  }

  predicate IsBlock(b: Body)
  {
    b.BlockAt?
  }

  function GetFirstBlock(c: Cause): (r: Option<Actor>)
    ensures IsFirst(c.causes, IsBlock, r)
  {
    FirstWhere(c, IsBlock)
  }

  /** The object is an entity of one of `types`. */
  predicate OfType(b: Body, types: seq<EntityType>)
  {
    b.EntityBody? && b.entity.etype in types
  }

  /** `find`: the type of the first entity in the chain whose type is one of
      `types`. */
  function Find(c: Cause, types: seq<EntityType>): (r: Option<EntityType>)
    ensures r.None? <==> forall j :: 0 <= j < |c.causes| ==> !OfType(c.causes[j].body, types)
    ensures r.Some? ==>
              && r.value in types
              && exists i :: 0 <= i < |c.causes| && OfType(c.causes[i].body, types)
                             && c.causes[i].body.entity.etype == r.value
                             && forall j :: 0 <= j < i ==> !OfType(c.causes[j].body, types)
  {
    match FirstIndex(c.causes, (b: Body) => OfType(b, types))
    case None => None
    case Some(i) => Some(c.causes[i].body.entity.etype)
  }

  // ---------------------------------------------------------------------
  // Tracking parent causes

  datatype CauseError = IllegalArgument(message: string)

  /** `trackParentCause`: refused for a block target, otherwise the parent
      is stored under the cause key. */
  function TrackParentCause(w: World, meta: ParentTable, target: Id, parent: Id): (r: Result<ParentTable, CauseError>)
    ensures r.Err? <==> target in w && w[target].BlockAt?
    ensures r.Ok? ==> HGMetadata.Lookup(r.value, target, CAUSE_KEY) == Some(parent)
    ensures r.Ok? ==> forall t: Id, k: string :: t != target || k != CAUSE_KEY ==>
                        HGMetadata.Lookup(r.value, t, k) == HGMetadata.Lookup(meta, t, k)
  {
    if target in w && w[target].BlockAt? then
      Err(IllegalArgument("Can't track causes on Blocks because Cause doesn't check block metadata"))
    else
      Ok(HGMetadata.Put(meta, target, CAUSE_KEY, parent))
  }

  /** `untrackParentCause`: removes the cause key of `target` and nothing else. */
  function UntrackParentCause(meta: ParentTable, target: Id): (r: ParentTable)
    ensures HGMetadata.Lookup(r, target, CAUSE_KEY) == None
    ensures forall t: Id, k: string :: t != target || k != CAUSE_KEY ==>
              HGMetadata.Lookup(r, t, k) == HGMetadata.Lookup(meta, t, k)
  {
    HGMetadata.Remove(meta, target, CAUSE_KEY)
  }

  // ---------------------------------------------------------------------
  // Worked chains

  /** A one-element `addAll` is that element's step. */
  lemma AddAllSingle(w: World, meta: ParentTable, o: Option<Id>, b: Builder)
    ensures AddAll(w, meta, [o], b) == AddOne(w, meta, o, b)
  {
    var b' := AddOne(w, meta, o, b);
    assert [o][1..] == [];
    assert AddAll(w, meta, [], b') == b';
  }

  /** Unfolds one step for an unseen object: mark it, expand its branch,
      then splice its ancestors and append it. */
  lemma AddOneUnseen(w: World, meta: ParentTable, id: Id, b: Builder)
    requires id in w && id !in b.seen
    ensures AddOne(w, meta, Some(id), b)
         == AppendSelf(w, meta, AddAll(w, meta, Links(w[id], BranchOf(w, w[id])), Marked(w, b, id)), id)
  {
  }

  /** Appending an object with no tracked parent appends just the object. */
  lemma AppendUntracked(w: World, meta: ParentTable, b2: Builder, id: Id)
    requires id in w && ParentOf(w, meta, id).None?
    ensures AppendSelf(w, meta, b2, id) == Builder(b2.causes + [Actor(id, w[id])], b2.seen, b2.indirect)
  {
    assert InsertParents(w, meta, b2.causes, |b2.causes|, id, b2.seen, {}) == (b2.causes, b2.seen);
  }

  /** An unseen object with no branch and no tracked parent is appended. */
  lemma AddOneLeaf(w: World, meta: ParentTable, id: Id, b: Builder)
    requires id in w && id !in b.seen
    requires BranchOf(w, w[id]) == NoBranch && ParentOf(w, meta, id).None?
    ensures AddOne(w, meta, Some(id), b) == Builder(b.causes + [Actor(id, w[id])], b.seen + {id}, b.indirect)
  {
    AddOneUnseen(w, meta, id, b);
    assert Links(w[id], NoBranch) == [];
    assert AddAll(w, meta, [], Marked(w, b, id)) == Marked(w, b, id);
    AppendUntracked(w, meta, Marked(w, b, id), id);
  }

  /** An unseen object whose branch hands back one unseen leaf, and which
      has no tracked parent, is appended after that leaf. */
  lemma AddOneOverLeaf(w: World, meta: ParentTable, id: Id, leaf: Id, b: Builder)
    requires id in w && id !in b.seen && leaf in w && leaf !in b.seen && leaf != id
    requires Links(w[id], BranchOf(w, w[id])) == [Some(leaf)] && ParentOf(w, meta, id).None?
    requires BranchOf(w, w[leaf]) == NoBranch && ParentOf(w, meta, leaf).None?
    ensures AddOne(w, meta, Some(id), b)
         == Builder(b.causes + [Actor(leaf, w[leaf]), Actor(id, w[id])], b.seen + {id, leaf},
                    b.indirect || MarksIndirect(BranchOf(w, w[id])))
  {
    AddOneUnseen(w, meta, id, b);
    var b1 := Marked(w, b, id);
    AddAllSingle(w, meta, Some(leaf), b1);
    AddOneLeaf(w, meta, leaf, b1);
    var b2 := Builder(b1.causes + [Actor(leaf, w[leaf])], b1.seen + {leaf}, b1.indirect);
    AppendUntracked(w, meta, b2, id);
    assert b1.seen + {leaf} == b.seen + {id, leaf};
  }

  /** An unseen object with no branch is appended after its ancestors. */
  lemma AddOneNoBranch(w: World, meta: ParentTable, id: Id, b: Builder)
    requires id in w && id !in b.seen && BranchOf(w, w[id]) == NoBranch
    ensures AddOne(w, meta, Some(id), b)
         == Builder(b.causes + (Ancestors(w, meta, id, {}) + [Actor(id, w[id])]),
                    b.seen + {id} + IdsOf(Ancestors(w, meta, id, {})), b.indirect)
  {
    AddOneUnseen(w, meta, id, b);
    var b1 := Marked(w, b, id);
    assert Links(w[id], NoBranch) == [];
    assert AddAll(w, meta, [], b1) == b1;
    AppendSelfShape(w, meta, b1, id);
  }

  /** An object whose one tracked parent has neither branch nor parent has
      that parent as its only ancestor. */
  lemma SingleAncestor(w: World, meta: ParentTable, id: Id, parent: Id)
    requires id in w && parent in w && id != parent
    requires Trackable(w[id]) && ParentOf(w, meta, id) == Some(parent) && ParentOf(w, meta, parent).None?
    ensures Ancestors(w, meta, id, {}) == [Actor(parent, w[parent])]
    ensures IdsOf(Ancestors(w, meta, id, {})) == {parent}
  {
    assert Ancestors(w, meta, parent, {id}) == [];
    assert IdsOf([Actor(parent, w[parent])]) == {parent};
  }

  /** An object whose branch is just a link to an object with neither a
      branch nor a parent resolves to that object, then itself. The chain is
      indirect iff the object's branch marks it so: a projectile's shooter or
      a TNT's source is direct, an effect cloud's caster is not. */
  lemma LinkedPairChain(w: World, meta: ParentTable, id: Id, linked: Id)
    requires id in w && linked in w && id != linked
    requires Links(w[id], BranchOf(w, w[id])) == [Some(linked)]
    requires BranchOf(w, w[linked]) == NoBranch
    requires ParentOf(w, meta, id).None? && ParentOf(w, meta, linked).None?
    ensures Create(w, meta, Some([Some(id)]))
         == Cause([Actor(linked, w[linked]), Actor(id, w[id])], MarksIndirect(BranchOf(w, w[id])))
  {
    var b0 := Builder([], {}, false);
    AddAllSingle(w, meta, Some(id), b0);
    AddOneOverLeaf(w, meta, id, linked, b0);
  }

  /** An object with no branch whose one tracked parent has neither branch
      nor parent resolves to the parent, then the object. */
  lemma TrackedParentChain(w: World, meta: ParentTable, id: Id, parent: Id)
    requires id in w && parent in w && id != parent
    requires BranchOf(w, w[id]) == NoBranch && BranchOf(w, w[parent]) == NoBranch
    requires Trackable(w[id]) && ParentOf(w, meta, id) == Some(parent) && ParentOf(w, meta, parent).None?
    ensures Create(w, meta, Some([Some(id)])) == Cause([Actor(parent, w[parent]), Actor(id, w[id])], false)
  {
    var b0 := Builder([], {}, false);
    SingleAncestor(w, meta, id, parent);
    AddAllSingle(w, meta, Some(id), b0);
    AddOneNoBranch(w, meta, id, b0);
  }

  /** A tracked parent is not checked against the objects already seen: a
      parent that was itself handed to `create` before its child appears
      twice. */
  lemma TrackedParentMayRepeat(w: World, meta: ParentTable, id: Id, parent: Id)
    requires id in w && parent in w && id != parent
    requires BranchOf(w, w[id]) == NoBranch && BranchOf(w, w[parent]) == NoBranch
    requires Trackable(w[id]) && ParentOf(w, meta, id) == Some(parent) && ParentOf(w, meta, parent).None?
    ensures Create(w, meta, Some([Some(parent), Some(id)]))
         == Cause([Actor(parent, w[parent]), Actor(parent, w[parent]), Actor(id, w[id])], false)
  {
    RepeatWalk(w, meta, id, parent);
  }

  /** The walk behind `TrackedParentMayRepeat`. */
  lemma RepeatWalk(w: World, meta: ParentTable, id: Id, parent: Id)
    requires id in w && parent in w && id != parent
    requires BranchOf(w, w[id]) == NoBranch && BranchOf(w, w[parent]) == NoBranch
    requires Trackable(w[id]) && ParentOf(w, meta, id) == Some(parent) && ParentOf(w, meta, parent).None?
    ensures AddAll(w, meta, [Some(parent), Some(id)], Builder([], {}, false)).causes
         == [Actor(parent, w[parent]), Actor(parent, w[parent]), Actor(id, w[id])]
    ensures !AddAll(w, meta, [Some(parent), Some(id)], Builder([], {}, false)).indirect
  {
    var b0 := Builder([], {}, false);
    SingleAncestor(w, meta, id, parent);
    AddOneLeaf(w, meta, parent, b0);
    var b1 := Builder([Actor(parent, w[parent])], {parent}, false);
    assert b0.causes + [Actor(parent, w[parent])] == b1.causes;
    assert AddOne(w, meta, Some(parent), b0) == b1;
    AddOneNoBranch(w, meta, id, b1);
    AddAllSingle(w, meta, Some(id), b1);
    var els := [Some(parent), Some(id)];
    assert els[1..] == [Some(id)];
    assert AddAll(w, meta, els, b0) == AddAll(w, meta, [Some(id)], b1);
    assert b1.causes + ([Actor(parent, w[parent])] + [Actor(id, w[id])])
        == [Actor(parent, w[parent]), Actor(parent, w[parent]), Actor(id, w[id])];
  }

  /** The arrow case of `LinkedPairChain`: the world's player shot the arrow. */
  lemma ArrowShotByPlayer(w: World, player: Id, arrow: Id)
    requires player in w && arrow in w && player != arrow
    requires w[player] == EntityBody(BasicEntity(PlayerType, {PlayerT, LivingT, HumanT}))
    requires w[arrow] == EntityBody(BasicEntity(Arrow, {ProjectileT, ArrowT}).(shooter := Some(player)))
    ensures Create(w, map[], Some([Some(arrow)])) == Cause([Actor(player, w[player]), Actor(arrow, w[arrow])], false)
  {
    LinkedPairChain(w, map[], arrow, player);
  }

  /** The effect-cloud case of `LinkedPairChain`: the chain is indirect. */
  lemma CloudIsIndirect(w: World, player: Id, cloud: Id)
    requires player in w && cloud in w && player != cloud
    requires w[player] == EntityBody(BasicEntity(PlayerType, {PlayerT, LivingT, HumanT}))
    requires w[cloud] == EntityBody(BasicEntity(AreaEffectCloud, {AreaEffectCloudT}).(source := Some(player)))
    ensures Create(w, map[], Some([Some(cloud)])) == Cause([Actor(player, w[player]), Actor(cloud, w[cloud])], true)
  {
    LinkedPairChain(w, map[], cloud, player);
  }

  /** Tracking a player as a pig's parent makes the player the pig's root cause. */
  lemma TrackThenCreate(w: World, player: Id, pig: Id)
    requires player in w && pig in w && player != pig
    requires w[player] == EntityBody(BasicEntity(PlayerType, {PlayerT, LivingT, HumanT}))
    requires w[pig] == EntityBody(BasicEntity(Pig, {LivingT, CreatureT, PigT}))
    ensures TrackParentCause(w, map[], pig, player).Ok?
    ensures Create(w, TrackParentCause(w, map[], pig, player).value, Some([Some(pig)]))
         == Cause([Actor(player, w[player]), Actor(pig, w[pig])], false)
  {
    var meta := TrackParentCause(w, map[], pig, player).value;
    assert HGMetadata.Lookup(meta, player, CAUSE_KEY) == None;
    TrackedParentChain(w, meta, pig, player);
  }

  /** An unseen object whose branch hands back one already-seen object,
      and which has no tracked parent, is appended on its own. */
  lemma AddOneOverSeen(w: World, meta: ParentTable, id: Id, other: Id, b: Builder)
    requires id in w && id !in b.seen && other in b.seen
    requires Links(w[id], BranchOf(w, w[id])) == [Some(other)] && ParentOf(w, meta, id).None?
    ensures AddOne(w, meta, Some(id), b)
         == Builder(b.causes + [Actor(id, w[id])], b.seen + {id}, b.indirect || MarksIndirect(BranchOf(w, w[id])))
  {
    AddOneUnseen(w, meta, id, b);
    var b1 := Marked(w, b, id);
    AddAllSingle(w, meta, Some(other), b1);
    assert AddOne(w, meta, Some(other), b1) == b1;
    AppendUntracked(w, meta, b1, id);
  }

  /** Two untracked objects whose indirect branches hand back each other
      resolve, from the first, to [second, first]. */
  lemma MutualChain(w: World, meta: ParentTable, a: Id, b: Id)
    requires a in w && b in w && a != b
    requires Links(w[a], BranchOf(w, w[a])) == [Some(b)] && MarksIndirect(BranchOf(w, w[a]))
    requires Links(w[b], BranchOf(w, w[b])) == [Some(a)]
    requires ParentOf(w, meta, a).None? && ParentOf(w, meta, b).None?
    ensures Create(w, meta, Some([Some(a)])) == Cause([Actor(b, w[b]), Actor(a, w[a])], true)
  {
    MutualWalk(w, meta, a, b);
  }

  /** The walk behind `MutualChain`. */
  lemma MutualWalk(w: World, meta: ParentTable, a: Id, b: Id)
    requires a in w && b in w && a != b
    requires Links(w[a], BranchOf(w, w[a])) == [Some(b)] && MarksIndirect(BranchOf(w, w[a]))
    requires Links(w[b], BranchOf(w, w[b])) == [Some(a)]
    requires ParentOf(w, meta, a).None? && ParentOf(w, meta, b).None?
    ensures AddAll(w, meta, [Some(a)], Builder([], {}, false)) == Builder([Actor(b, w[b]), Actor(a, w[a])], {a, b}, true)
  {
    var b0 := Builder([], {}, false);
    AddAllSingle(w, meta, Some(a), b0);
    AddOneUnseen(w, meta, a, b0);
    var b1 := Marked(w, b0, a);
    AddAllSingle(w, meta, Some(b), b1);
    AddOneOverSeen(w, meta, b, a, b1);
    var b3 := Builder([Actor(b, w[b])], {a, b}, true);
    assert AddOne(w, meta, Some(b), b1) == b3;
    AppendUntracked(w, meta, b3, a);
  }

  /** A cycle of links defeats the root-first order: two creatures targeting
      each other resolve to [b, a], and b's target a comes after b. */
  lemma MutualTargetsNotRootFirst(w: World, a: Id, b: Id)
    requires a in w && b in w && a != b
    requires w[a] == EntityBody(BasicEntity(Wolf, {LivingT, CreatureT}).(target := Some(b)))
    requires w[b] == EntityBody(BasicEntity(Zombie, {LivingT, CreatureT, MonsterT}).(target := Some(a)))
    ensures Create(w, map[], Some([Some(a)])) == Cause([Actor(b, w[b]), Actor(a, w[a])], true)
    ensures a in LinkIds(w, w[b])
  {
    TargetsBranch(w, a, b);
    TargetsBranch(w, b, a);
    MutualChain(w, map[], a, b);
  }

  /** A creature with a target in the world takes the target branch, and its
      one link is that target. */
  lemma TargetsBranch(w: World, x: Id, y: Id)
    requires x in w && y in w && x != y && w[x].EntityBody?
    requires w[x].entity.target == Some(y) && CreatureT in w[x].entity.traits
    requires PrimedTntT !in w[x].entity.traits && ProjectileT !in w[x].entity.traits
    requires VehicleT !in w[x].entity.traits && AreaEffectCloudT !in w[x].entity.traits
    ensures BranchOf(w, w[x]) == CreatureTarget && MarksIndirect(CreatureTarget)
    ensures Links(w[x], BranchOf(w, w[x])) == [Some(y)]
    ensures ParentOf(w, map[], x).None?
  {
  }

  /** A tamed pet whose owner is a world object, resolved through the
      tameable branch, has its owner in its cause, and the cause is
      indirect. */
  lemma TamedPetBringsOwner(w: World, pet: Id)
    requires pet in w && w[pet].EntityBody? && BranchOf(w, w[pet]) == TameableOwner
    requires Entities.IsTamed(Some(w[pet].entity)) && w[pet].entity.owner.value in w
    ensures Create(w, map[], Some([Some(pet)])).indirect
    ensures w[pet].entity.owner.value in IdsOf(Create(w, map[], Some([Some(pet)])).causes)
  {
    var c := Create(w, map[], Some([Some(pet)]));
    assert pet in IdsOf(c.causes);
    var x :| x in c.causes && x.id == pet;
    var i :| 0 <= i < |c.causes| && c.causes[i] == x;
    assert c.causes[i].body == w[pet];
    assert w[pet].entity.owner.value in LinkIds(w, w[pet]);
  }

  /** Cause resolution looks at tameability, not tamedness: a tameable with
      no owner, which is not tamed, still makes its cause indirect. */
  lemma UntamedTameableIsIndirect(w: World, pet: Id)
    requires pet in w && w[pet].EntityBody? && BranchOf(w, w[pet]) == TameableOwner
    requires !Entities.IsTamed(Some(w[pet].entity))
    ensures Create(w, map[], Some([Some(pet)])) == Cause([Actor(pet, w[pet])], true)
  {
    var meta: ParentTable := map[];
    var b0 := Builder([], {}, false);
    AddAllSingle(w, meta, Some(pet), b0);
    AddOneUnseen(w, meta, pet, b0);
    var b1 := Marked(w, b0, pet);
    assert Links(w[pet], TameableOwner) == [None];
    AddAllSingle(w, meta, None, b1);
    AppendUntracked(w, meta, b1, pet);
  }
}
