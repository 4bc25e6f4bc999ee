/** The relationship manager of one parent item (`ItemsWithSpells5eItem`): its
    reference list, the two memo caches derived from it, the resolution of a
    reference into a spell, and the attach / detach / override-update operations. */
module ItemSpells {
  import opened Documents
  import opened JsMaps
  import opened Host

  const MissingItemName := "IWS.MISSING_ITEM"
  const MissingItemDescription := "IWS.MISSING_ITEM_DESCRIPTION"
  const MissingItemImg := "icons/svg/hazard.svg"
  const AtWill := "atwill"
  const Charges := "charges"

  const BlankSystem := ItemSystem(None, Attack(None, None), Uses(None, None), Consume(None, None, None), None, "", None)

  /** The uuid the host gives a temporary item: under its parent actor when it has one. */
  function TemporaryUuid(actor: Option<string>, id: string): string {
    match actor
    case Some(a) => EmbeddedUuid(a, id)
    case None => "Item." + id
  }

  /** `FakeEmptySpell(uuid, parent)`: the stand-in for a reference whose source is gone. */
  function FakeEmptySpell(uuid: string, parent: Option<string>): (r: Item)
    ensures r.id == LastSegment(uuid) && r.kind == "spell"
    ensures r.name == MissingItemName && r.img == MissingItemImg
    ensures r.system.description == MissingItemDescription
    ensures r.actor == parent && r.parentItem.None? && r.itemSpells.None?
  {
    var id := LastSegment(uuid);
    Item(id, TemporaryUuid(parent, id), "spell", MissingItemName, MissingItemImg, parent,
         None, None, None, None, BlankSystem.(description := MissingItemDescription))
  }

  /** `itemSpellList`: the parent's `item-spells` flag, or nothing attached. */
  function SpellList(item: Item): (refs: seq<SpellRef>)
    ensures item.itemSpells.None? ==> refs == []
    ensures item.itemSpells.Some? ==> refs == item.itemSpells.value
  {
    match item.itemSpells
    case None => []
    case Some(refs) => refs
  }

  /** The key of a reference in the flag map: the last segment of its uuid. */
  function RefKey(r: SpellRef): string {
    LastSegment(r.uuid)
  }

  /** The key of a resolved spell in the spell map: its id. */
  function ItemId(it: Item): string {
    it.id
  }

  /** The flag map that `_getItemSpellFlagMap` builds from a reference list. */
  function FlagMapOf(refs: seq<SpellRef>): JsMap<SpellRef> {
    Collect(refs, RefKey)
  }

  /** Reading one more reference is one more `set` on the flag map. */
  lemma FlagMapSnoc(refs: seq<SpellRef>, i: nat)
    requires i < |refs|
    ensures FlagMapOf(refs[..i + 1]) == Set(FlagMapOf(refs[..i]), RefKey(refs[i]), refs[i])
  {
    CollectSnoc(refs, RefKey, i);
  }

  /** The flag map has one key per distinct uuid segment, and a key names the last reference with that segment. */
  lemma FlagMapSpec(refs: seq<SpellRef>, k: string)
    ensures Get(FlagMapOf(refs), k).None? <==> forall i :: 0 <= i < |refs| ==> LastSegment(refs[i].uuid) != k
    ensures Get(FlagMapOf(refs), k).Some? ==>
              exists i :: 0 <= i < |refs| && refs[i] == Get(FlagMapOf(refs), k).value && LastSegment(refs[i].uuid) == k
                          && forall j :: i < j < |refs| ==> LastSegment(refs[j].uuid) != k
  {
    CollectGet(refs, RefKey, k);
    var r := LastIndexWithKey(refs, RefKey, k);
    if 0 <= r {
      assert refs[r] == Get(FlagMapOf(refs), k).value && LastSegment(refs[r].uuid) == k;
    }
  }

  /** `getSpellParentId(spell)` names the parent by its id or, for older data, its uuid. */
  predicate NamesParent(spell: Item, parent: Item) {
    spell.parentItem == Some(parent.id) || spell.parentItem == Some(parent.uuid)
  }

  /** The housekeeping fields `_getFlagFixObject` stamps on a spell copied from `source`. */
  datatype FlagFix = FlagFix(parentItem: string, preparationMode: string, clearTidySection: bool)

  /** `_getFlagFixObject(source)` for the parent with uuid `parentUuid`. */
  function FlagFixFor(parentUuid: string, source: Item): (f: FlagFix)
    ensures f.parentItem == parentUuid && f.preparationMode == AtWill
    ensures f.clearTidySection <==> Truthy(source.tidySection)
  {
    FlagFix(parentUuid, AtWill, Truthy(source.tidySection))
  }

  /** Merges the housekeeping fields into an item. */
  function ApplyFlagFix(it: Item, f: FlagFix): (r: Item)
    ensures r.parentItem == Some(f.parentItem) && r.system.preparationMode == Some(f.preparationMode)
    ensures r.tidySection == if f.clearTidySection then None else it.tidySection
    ensures r.(parentItem := it.parentItem, tidySection := it.tidySection,
               system := r.system.(preparationMode := it.system.preparationMode)) == it
  {
    it.(parentItem := Some(f.parentItem),
        tidySection := if f.clearTidySection then None else it.tidySection,
        system := it.system.(preparationMode := Some(f.preparationMode)))
  }

  /** The `system` part of a reference's `changes`, or the empty patch. */
  function PatchOf(c: Option<Changes>): SystemPatch {
    match c
    case Some(Changes(Some(p))) => p
    case _ => EmptyPatch
  }

  /** The attack-bonus backward compatibility both hooks apply to an override patch. */
  function NormalizeAttack(p: SystemPatch): (q: SystemPatch)
    ensures Truthy(p.attackBonus) && p.attack.None? ==> q.attack == Some(Attack(p.attackBonus, Some(true)))
    ensures !(Truthy(p.attackBonus) && p.attack.None?) && p.attack.Some? && Truthy(p.attack.value.bonus) ==>
              q.attack == Some(p.attack.value.(flat := Some(true)))
    ensures !(Truthy(p.attackBonus) && p.attack.None?) && !(p.attack.Some? && Truthy(p.attack.value.bonus)) ==>
              q == p
    ensures q.(attack := p.attack) == p
  {
    if Truthy(p.attackBonus) && p.attack.None? then
      p.(attack := Some(Attack(p.attackBonus, Some(true))))
    else if p.attack.Some? && Truthy(p.attack.value.bonus) then
      p.(attack := Some(p.attack.value.(flat := Some(true))))
    else
      p
  }

  /** Normalizing twice changes nothing more than normalizing once. */
  lemma NormalizeAttackIdempotent(p: SystemPatch)
    ensures NormalizeAttack(NormalizeAttack(p)) == NormalizeAttack(p)
  {
  }

  /** A truthy consume amount draws the spell's uses from the parent's charges. */
  function ConsumeFromParent(p: SystemPatch, parentId: string): (q: SystemPatch)
    ensures p.consume.Some? && Truthy(p.consume.value.amount) ==>
              q.consume == Some(p.consume.value.(kind := Some(Charges), target := Some(parentId)))
    ensures !(p.consume.Some? && Truthy(p.consume.value.amount)) ==> q == p
    ensures q.(consume := p.consume) == p
  {
    if p.consume.Some? && Truthy(p.consume.value.amount) then
      p.(consume := Some(p.consume.value.(kind := Some(Charges), target := Some(parentId))))
    else
      p
  }

  /** What a reference's source is: the document its uuid names, or the placeholder. */
  function Original(parent: Item, w: World, uuid: string): Item {
    match FromUuid(w, uuid)
    case Some(o) => o
    case None => FakeEmptySpell(uuid, parent.actor)
  }

  /** `_getChildItem(ref)`: the owned spell when it already names this parent; otherwise a
      temporary copy of the source with the adjusted overrides and the housekeeping flags. */
  function ResolveChild(parent: Item, w: World, ref: SpellRef): (r: Item)
    ensures FromUuid(w, ref.uuid).None? ==>
              r.id == LastSegment(ref.uuid) && r.name == MissingItemName && r.knownUuid == Some(ref.uuid)
    ensures FromUuid(w, ref.uuid).Some? && NamesParent(FromUuid(w, ref.uuid).value, parent) ==>
              r == FromUuid(w, ref.uuid).value
    ensures FromUuid(w, ref.uuid).Some? ==> r.id == FromUuid(w, ref.uuid).value.id
    ensures !NamesParent(Original(parent, w, ref.uuid), parent) ==>
              && r.knownUuid == Some(ref.uuid)
              && r.parentItem == Some(parent.uuid)
              && r.system.preparationMode == Some(AtWill)
              && r.actor == parent.actor
              && (Truthy(Original(parent, w, ref.uuid).tidySection) ==> r.tidySection.None?)
  {
    var original := Original(parent, w, ref.uuid);
    if NamesParent(original, parent) then original
    else
      var patch := ConsumeFromParent(NormalizeAttack(PatchOf(ref.changes)), parent.id);
      var merged := original.(system := MergeSystem(original.system, patch));
      ApplyFlagFix(merged, FlagFixFor(parent.uuid, original))
        .(knownUuid := Some(ref.uuid), actor := parent.actor, uuid := TemporaryUuid(parent.actor, original.id))
  }

  /** In a synthesized spell, the overrides win field by field, after the attack and consume adjustments. */
  lemma SynthesizedOverrides(parent: Item, w: World, ref: SpellRef)
    requires !NamesParent(Original(parent, w, ref.uuid), parent)
    ensures var p, o, r := PatchOf(ref.changes), Original(parent, w, ref.uuid), ResolveChild(parent, w, ref);
            && (Truthy(p.attackBonus) && p.attack.None? ==>
                  r.system.attack == Attack(p.attackBonus, Some(true)) && r.system.attackBonus == p.attackBonus)
            && (!(Truthy(p.attackBonus) && p.attack.None?) && p.attack.Some? && Truthy(p.attack.value.bonus) ==>
                  r.system.attack.bonus == p.attack.value.bonus && r.system.attack.flat == Some(true))
            && (p.consume.Some? && Truthy(p.consume.value.amount) ==>
                  r.system.consume == Consume(p.consume.value.amount, Some(Charges), Some(parent.id)))
            && (p.uses.Some? ==> r.system.uses == MergeUses(o.system.uses, p.uses))
            && r.system.description == o.system.description
  {
  }

  /** The spells of a reference list, resolved one by one in list order. */
  function ResolveEach(parent: Item, w: World, refs: seq<SpellRef>): (rs: seq<Item>)
    ensures |rs| == |refs| && forall i :: 0 <= i < |refs| ==> rs[i] == ResolveChild(parent, w, refs[i])
  {
    seq(|refs|, i requires 0 <= i < |refs| => ResolveChild(parent, w, refs[i]))
  }

  /** The spell map that `_getItemSpellItems` builds: each resolved spell under its id. */
  function ResolveAll(parent: Item, w: World, refs: seq<SpellRef>): JsMap<Item> {
    Collect(ResolveEach(parent, w, refs), ItemId)
  }

  /** A spell map entry is the last resolved spell with that id, and every resolved spell has an entry. */
  lemma ResolveAllSpec(parent: Item, w: World, refs: seq<SpellRef>, k: string)
    ensures Get(ResolveAll(parent, w, refs), k).None? <==>
              forall i :: 0 <= i < |refs| ==> ResolveChild(parent, w, refs[i]).id != k
    ensures Get(ResolveAll(parent, w, refs), k).Some? ==>
              exists i :: 0 <= i < |refs| && ResolveChild(parent, w, refs[i]) == Get(ResolveAll(parent, w, refs), k).value
                          && ResolveChild(parent, w, refs[i]).id == k
                          && forall j :: i < j < |refs| ==> ResolveChild(parent, w, refs[j]).id != k
  {
    var rs := ResolveEach(parent, w, refs);
    CollectGet(rs, ItemId, k);
    var r := LastIndexWithKey(rs, ItemId, k);
    assert forall i :: 0 <= i < |refs| ==> ItemId(rs[i]) == ResolveChild(parent, w, refs[i]).id;
    if 0 <= r {
      assert rs[r] == ResolveChild(parent, w, refs[r]) == Get(ResolveAll(parent, w, refs), k).value;
    }
  }

  /** The store keeps every document under the uuid whose last segment is its id. */
  ghost predicate WellKeyed(w: World) {
    forall u :: u in w.docs ==> LastSegment(u) == w.docs[u].id
  }

  /** In a well-keyed store, a resolved spell carries its reference's uuid segment as its id,
      so the flag map and the spell map of one reference list have the same keys. */
  lemma CachesShareKeys(parent: Item, w: World, refs: seq<SpellRef>, k: string)
    requires WellKeyed(w)
    ensures k in KeySet(ResolveAll(parent, w, refs)) <==> k in KeySet(FlagMapOf(refs))
  {
    var rs := ResolveEach(parent, w, refs);
    CollectGet(rs, ItemId, k);
    CollectGet(refs, RefKey, k);
    assert forall i :: 0 <= i < |refs| ==> ItemId(rs[i]) == RefKey(refs[i]);
  }

  /** The references that survive `filter(({uuid}) => uuid !== uuidToRemove)`, in order. */
  function KeepOthers(refs: seq<SpellRef>, uuidToRemove: Option<string>): (r: seq<SpellRef>)
    ensures |r| <= |refs|
    decreases |refs|
  {
    if refs == [] then []
    else (if Some(refs[0].uuid) != uuidToRemove then [refs[0]] else []) + KeepOthers(refs[1..], uuidToRemove)
  }

  /** The filter keeps exactly the references whose uuid is not the one removed. */
  lemma {:induction false} KeepOthersMembers(refs: seq<SpellRef>, uuidToRemove: Option<string>, x: SpellRef)
    ensures x in KeepOthers(refs, uuidToRemove) <==> x in refs && Some(x.uuid) != uuidToRemove
    decreases |refs|
  {
    if refs != [] {
      KeepOthersMembers(refs[1..], uuidToRemove, x);
      assert x in refs <==> x == refs[0] || x in refs[1..];
    }
  }

  /** Filtering a list with a known head filters the head, then the rest. */
  lemma KeepOthersCons(x: SpellRef, rest: seq<SpellRef>, u: Option<string>)
    ensures KeepOthers([x] + rest, u) == (if Some(x.uuid) != u then [x] else []) + KeepOthers(rest, u)
  {
    assert ([x] + rest)[0] == x && ([x] + rest)[1..] == rest;
  }

  /** Filtering distributes over concatenation, so it keeps the order of the survivors. */
  lemma {:induction false} KeepOthersAppend(a: seq<SpellRef>, b: seq<SpellRef>, u: Option<string>)
    ensures KeepOthers(a + b, u) == KeepOthers(a, u) + KeepOthers(b, u)
    decreases |a|
  {
    if a != [] {
      var head := if Some(a[0].uuid) != u then [a[0]] else [];
      calc {
        KeepOthers(a + b, u);
      == { assert a + b == [a[0]] + (a[1..] + b); KeepOthersCons(a[0], a[1..] + b, u); }
        head + KeepOthers(a[1..] + b, u);
      == { KeepOthersAppend(a[1..], b, u); }
        head + (KeepOthers(a[1..], u) + KeepOthers(b, u));
      ==
        (head + KeepOthers(a[1..], u)) + KeepOthers(b, u);
      == { assert a == [a[0]] + a[1..]; KeepOthersCons(a[0], a[1..], u); }
        KeepOthers(a, u) + KeepOthers(b, u);
      }
    } else {
      assert a + b == b;
    }
  }

  /** A filter that matches nothing leaves the list as it was. */
  lemma {:induction false} KeepOthersNoMatch(refs: seq<SpellRef>, u: Option<string>)
    requires forall i :: 0 <= i < |refs| ==> Some(refs[i].uuid) != u
    ensures KeepOthers(refs, u) == refs
    decreases |refs|
  {
    if refs != [] {
      KeepOthersNoMatch(refs[1..], u);
    }
  }

  /** The reference-level uuid `removeSpellFromItem` drops for a resolved spell: the owned
      item's uuid when the parent is embedded, otherwise the recorded source uuid. */
  function RemovalUuid(parent: Item, spell: Item): Option<string> {
    if parent.actor.Some? then Some(spell.uuid) else spell.knownUuid
  }

  /** The uuid dropped for a resolved spell is its reference's own uuid: through the recorded
      source uuid on an unowned parent; through the owned spell's uuid on an embedded parent
      whose spell already names it and is stored under its own uuid; and, on an embedded parent,
      through the placeholder's uuid when the owned spell under the reference is gone. */
  lemma RemovalUuidOfResolved(parent: Item, w: World, ref: SpellRef)
    ensures parent.actor.None? && !NamesParent(Original(parent, w, ref.uuid), parent) ==>
              RemovalUuid(parent, ResolveChild(parent, w, ref)) == Some(ref.uuid)
    ensures parent.actor.Some? && FromUuid(w, ref.uuid).Some? && NamesParent(FromUuid(w, ref.uuid).value, parent)
            && FromUuid(w, ref.uuid).value.uuid == ref.uuid ==>
              RemovalUuid(parent, ResolveChild(parent, w, ref)) == Some(ref.uuid)
    ensures parent.actor.Some? && FromUuid(w, ref.uuid).None?
            && ref.uuid == EmbeddedUuid(parent.actor.value, LastSegment(ref.uuid)) ==>
              RemovalUuid(parent, ResolveChild(parent, w, ref)) == Some(ref.uuid)
  {
  }

  /** On an embedded parent, a reference that resolves to a synthesized copy is detached by the
      copy's temporary uuid under the actor; when that is not the reference's own uuid (a
      compendium source, say), the filter keeps the reference and nothing is detached. */
  lemma EmbeddedCopyStaysAttached(parent: Item, w: World, ref: SpellRef, refs: seq<SpellRef>)
    requires parent.actor.Some? && !NamesParent(Original(parent, w, ref.uuid), parent)
    requires ref.uuid != EmbeddedUuid(parent.actor.value, Original(parent, w, ref.uuid).id)
    ensures RemovalUuid(parent, ResolveChild(parent, w, ref))
            == Some(EmbeddedUuid(parent.actor.value, Original(parent, w, ref.uuid).id))
    ensures ref in refs ==> ref in KeepOthers(refs, RemovalUuid(parent, ResolveChild(parent, w, ref)))
  {
    KeepOthersMembers(refs, RemovalUuid(parent, ResolveChild(parent, w, ref)), ref);
  }

  /** A compendium source attached to a parent on actor `Actor.a`: its copy's temporary uuid is
      `Actor.a.Item.x`, which differs from the reference's `Compendium.s.Item.x`. */
  lemma CompendiumSourceOnActor(x: string)
    ensures EmbeddedUuid("Actor.a", x) != "Compendium.s.Item." + x
  {
    assert EmbeddedUuid("Actor.a", x)[0] == 'A';
    assert ("Compendium.s.Item." + x)[0] == 'C';
  }

  /** Attaching a source to an unowned parent and then detaching the spell it resolves to
      gives back the original reference list. */
  lemma AttachDetachRoundTrip(parent: Item, w: World, refs: seq<SpellRef>, u: string)
    requires parent.actor.None?
    requires forall i :: 0 <= i < |refs| ==> refs[i].uuid != u
    requires !NamesParent(Original(parent, w, u), parent)
    requires FromUuid(w, u).Some? ==> FromUuid(w, u).value.id == LastSegment(u)
    ensures var refs' := refs + [SpellRef(u, None, None)];
            var spell := Get(ResolveAll(parent, w, refs'), LastSegment(u));
            && spell.Some?
            && RemovalUuid(parent, spell.value) == Some(u)
            && KeepOthers(refs', RemovalUuid(parent, spell.value)) == refs
  {
    var added := SpellRef(u, None, None);
    var refs' := refs + [added];
    var rs := ResolveEach(parent, w, refs');
    assert rs[|rs| - 1] == ResolveChild(parent, w, added);
    assert ResolveChild(parent, w, added).id == LastSegment(u);
    CollectGet(rs, ItemId, LastSegment(u));
    KeepOthersAppend(refs, [added], Some(u));
    KeepOthersNoMatch(refs, Some(u));
  }

  /** When no two references share a uuid segment, reading the flag map's values back gives
      the reference list itself, and replacing one record's `changes` touches only that record. */
  lemma UpdateOverridesReplacesOne(refs: seq<SpellRef>, i: nat, overrides: Changes)
    requires i < |refs|
    requires forall a, b :: 0 <= a < b < |refs| ==> LastSegment(refs[a].uuid) != LastSegment(refs[b].uuid)
    ensures var m := FlagMapOf(refs);
            var k := LastSegment(refs[i].uuid);
            && Get(m, k) == Some(refs[i])
            && Values(Set(m, k, Get(m, k).value.(changes := Some(overrides)))) == refs[i := refs[i].(changes := Some(overrides))]
  {
    var m := FlagMapOf(refs);
    var k := RefKey(refs[i]);
    DistinctFlagMapGet(refs, i);
    CollectDistinctValues(refs, RefKey);
    CollectKeyed(refs, RefKey);
    assert m[i].1 == refs[i];
    assert m[i].0 == k;
    SetPresentValues(m, k, refs[i].(changes := Some(overrides)), i);
  }

  /** Without shared segments, each reference is what its own segment looks up. */
  lemma DistinctFlagMapGet(refs: seq<SpellRef>, i: nat)
    requires i < |refs|
    requires forall a, b :: 0 <= a < b < |refs| ==> RefKey(refs[a]) != RefKey(refs[b])
    ensures Get(FlagMapOf(refs), RefKey(refs[i])) == Some(refs[i])
  {
    var k := RefKey(refs[i]);
    CollectGet(refs, RefKey, k);
    var r := LastIndexWithKey(refs, RefKey, k);
    assert 0 <= r <= i;
    assert RefKey(refs[r]) == k;
    if r < i {
      assert false;
    }
  }

  /** Two sources in different packs that share an id collapse to one flag-map entry, so an
      override update, which writes the map's values back, drops the first reference. */
  lemma DuplicateSegmentsCollapse(a: SpellRef, b: SpellRef, packA: string, packB: string, id: string)
    requires '.' !in id && a.uuid == packA + "." + id && b.uuid == packB + "." + id
    ensures Values(FlagMapOf([a, b])) == [b]
  {
    LastSegmentOfJoin(packA, id);
    LastSegmentOfJoin(packB, id);
    calc {
      FlagMapOf([a, b]);
    == { FlagMapSnoc([a, b], 1); assert [a, b][..2] == [a, b]; }
      Set(FlagMapOf([a, b][..1]), id, b);
    == { FlagMapSnoc([a, b], 0); assert [a, b][..0] == []; }
      Set(Set([], id, a), id, b);
    ==
      [(id, b)];
    }
  }

  /** `getItemSpells`' `item` argument: a uuid to look up, or the item itself. */
  datatype ItemArg = ByUuid(uuid: string) | ByItem(item: Item)

  /** `getItemSpells`' `providedItems` argument: left at its default `false`, passed as
      `null`, or passed as a collection (whose contents the query never reads). */
  datatype Provided = DefaultFalse | NullItems | GivenItems

  /** What `getItemSpells` resolves to. */
  datatype SpellQuery = QueryTypeError | NoSpells | Spells(spells: JsMap<Item>)

  /** The items among `items` whose parent flag names `parent`, in order. */
  function BackReferencing(items: seq<Item>, parent: Item): (r: seq<Item>)
    ensures forall s :: s in r <==> s in items && NamesParent(s, parent)
    ensures |r| <= |items|
    decreases |items|
  {
    if items == [] then []
    else
      assert forall s :: s in items <==> s == items[0] || s in items[1..];
      (if NamesParent(items[0], parent) then [items[0]] else []) + BackReferencing(items[1..], parent)
  }

  /** Whether `getItemSpells` reads `item.actor?.items`. Its test
      `providedItems ?? embeddedOnly ? item.actor?.items : false` groups as
      `(providedItems ?? embeddedOnly) ? … : false`; that is reproduced here. */
  function ReadsActorItems(provided: Provided, embeddedOnly: bool): (b: bool)
    ensures provided == GivenItems ==> b
    ensures provided == DefaultFalse ==> !b
    ensures provided == NullItems ==> (b <==> embeddedOnly)
  {
    match provided
    case DefaultFalse => false
    case NullItems => embeddedOnly
    case GivenItems => true
  }

  /** `ItemsWithSpells5eItem.getItemSpells(item, embeddedOnly, providedItems)`. */
  function GetItemSpells(w: World, arg: ItemArg, embeddedOnly: bool, provided: Provided): SpellQuery {
    var found := match arg case ByUuid(u) => FromUuid(w, u) case ByItem(it) => Some(it);
    if found.None? then QueryTypeError
    else
      var item := found.value;
      if embeddedOnly && item.actor.None? then NoSpells
      else if |SpellList(item)| == 0 then NoSpells
      else
        var items := if ReadsActorItems(provided, embeddedOnly) && item.actor.Some? then ActorItems(w, item.actor.value) else None;
        if embeddedOnly && items.None? then NoSpells
        else if items.Some? then Spells(Collect(BackReferencing(items.value, item), ItemId))
        else Spells(ResolveAll(item, w, SpellList(item)))
  }

  /** Whether the query's parent is embedded in an actor the store knows. */
  predicate OnKnownActor(w: World, item: Item) {
    item.actor.Some? && item.actor.value in w.actors
  }

  /** When `getItemSpells` answers `null`: a uuid that resolves nowhere is a type error; otherwise
      the answer is `null` exactly when no spells are attached, or `embeddedOnly` is set and the
      parent is not embedded or its actor's items are not read. */
  lemma GetItemSpellsNull(w: World, arg: ItemArg, embeddedOnly: bool, provided: Provided)
    ensures var q := GetItemSpells(w, arg, embeddedOnly, provided);
            && (q == QueryTypeError <==> arg.ByUuid? && arg.uuid !in w.docs)
            && (arg.ByUuid? && arg.uuid in w.docs ==>
                  q == GetItemSpells(w, ByItem(w.docs[arg.uuid]), embeddedOnly, provided))
            && (arg.ByItem? ==>
                  (q == NoSpells <==>
                     || |SpellList(arg.item)| == 0
                     || (embeddedOnly && !(ReadsActorItems(provided, embeddedOnly) && OnKnownActor(w, arg.item)))))
  {
  }

  /** With `embeddedOnly` and the default `providedItems`, the query never returns spells. */
  lemma EmbeddedOnlyDefaultIsNull(w: World, arg: ItemArg)
    ensures !GetItemSpells(w, arg, true, DefaultFalse).Spells?
  {
  }

  /** The map built from the items naming the parent: an id is a key iff one of them has it, and it
      maps to the last of them with that id. */
  lemma BackReferencingMap(items: seq<Item>, parent: Item, k: string)
    ensures var siblings := BackReferencing(items, parent);
            var m := Collect(siblings, ItemId);
            var i := LastIndexWithKey(siblings, ItemId, k);
            && (k in KeySet(m) <==> exists s :: s in items && NamesParent(s, parent) && s.id == k)
            && Get(m, k) == (if i < 0 then None else Some(siblings[i]))
            && (Get(m, k).Some? ==> var s := Get(m, k).value; s in items && NamesParent(s, parent) && s.id == k)
  {
    var siblings := BackReferencing(items, parent);
    CollectKeys(siblings, ItemId);
    CollectGet(siblings, ItemId, k);
    var i := LastIndexWithKey(siblings, ItemId, k);
    if 0 <= i {
      assert siblings[i] in siblings;
    }
  }

  /** When the actor's items are read, the result is the map built from those naming the parent. */
  lemma GetItemSpellsReadsActor(w: World, item: Item, embeddedOnly: bool, provided: Provided)
    requires |SpellList(item)| > 0 && ReadsActorItems(provided, embeddedOnly) && OnKnownActor(w, item)
    ensures GetItemSpells(w, ByItem(item), embeddedOnly, provided)
            == Spells(Collect(BackReferencing(ActorItems(w, item.actor.value).value, item), ItemId))
  {
  }

  /** When the actor's items are read, the result maps each id to the last of the actor's items that
      names the parent and has that id, and to nothing when there is none; otherwise, without
      `embeddedOnly`, a non-empty list is resolved as the spell map does. */
  lemma GetItemSpellsSpec(w: World, item: Item, embeddedOnly: bool, provided: Provided, k: string)
    ensures var q := GetItemSpells(w, ByItem(item), embeddedOnly, provided);
            |SpellList(item)| > 0 && ReadsActorItems(provided, embeddedOnly) && OnKnownActor(w, item) ==>
              var items := ActorItems(w, item.actor.value).value;
              var siblings := BackReferencing(items, item);
              var i := LastIndexWithKey(siblings, ItemId, k);
              && q.Spells?
              && (k in KeySet(q.spells) <==> exists s :: s in items && NamesParent(s, item) && s.id == k)
              && Get(q.spells, k) == (if i < 0 then None else Some(siblings[i]))
              && (Get(q.spells, k).Some? ==>
                    var s := Get(q.spells, k).value; s in items && NamesParent(s, item) && s.id == k)
    ensures |SpellList(item)| > 0 && !embeddedOnly && !(ReadsActorItems(provided, embeddedOnly) && OnKnownActor(w, item)) ==>
              GetItemSpells(w, ByItem(item), embeddedOnly, provided) == Spells(ResolveAll(item, w, SpellList(item)))
  {
    if |SpellList(item)| > 0 && ReadsActorItems(provided, embeddedOnly) && OnKnownActor(w, item) {
      GetItemSpellsReadsActor(w, item, embeddedOnly, provided);
      BackReferencingMap(ActorItems(w, item.actor.value).value, item, k);
    }
  }

  /** The outcome of `removeSpellFromItem`. */
  datatype Removal =
    | RemoveTypeError            // the spell map was not warm, or the id is not attached
    | Unlinked                   // the reference is gone; no owned spell was touched
    | SpellDeleted(spell: Item)  // the owned spell was deleted as well
    | SpellUnflagged(spell: Item) // the owned spell stays, without its parent flag

  /** The `forEach` loop of `_getItemSpellFlagMap`: each reference is set under its uuid's segment. */
  method CollectFlagMap(refs: seq<SpellRef>) returns (m: JsMap<SpellRef>)
    ensures m == FlagMapOf(refs)
  {
    assert refs[..0] == [] && refs[..|refs|] == refs;
    m := [];
    for i := 0 to |refs|
      invariant m == FlagMapOf(refs[..i])
    {
      FlagMapSnoc(refs, i);
      m := Set(m, RefKey(refs[i]), refs[i]);
    }
  }

  /** `_getChildItem({uuid, changes})` of the manager of `parent`, adjusting the patch step by step. */
  method GetChildItem(parent: Item, w: World, ref: SpellRef) returns (child: Item)
    ensures child == ResolveChild(parent, w, ref)
  {
    var original: Item;
    var found := FromUuid(w, ref.uuid);
    if found.None? {
      original := FakeEmptySpell(ref.uuid, parent.actor);
    } else {
      original := found.value;
    }
    if NamesParent(original, parent) {
      return original;
    }
    var patch := PatchOf(ref.changes);
    if Truthy(patch.attackBonus) && patch.attack.None? {
      patch := patch.(attack := Some(Attack(patch.attackBonus, Some(true))));
    } else if patch.attack.Some? && Truthy(patch.attack.value.bonus) {
      patch := patch.(attack := Some(patch.attack.value.(flat := Some(true))));
    }
    var fix := FlagFixFor(parent.uuid, original);
    if patch.consume.Some? && Truthy(patch.consume.value.amount) {
      patch := patch.(consume := Some(patch.consume.value.(kind := Some(Charges), target := Some(parent.id))));
    }
    child := original.(system := MergeSystem(original.system, patch));
    child := ApplyFlagFix(child, fix);
    child := child.(knownUuid := Some(ref.uuid), actor := parent.actor, uuid := TemporaryUuid(parent.actor, original.id));
  }

  /** The resolution loop of `_getItemSpellItems`: each resolved spell is set under its id, in list order. */
  method ResolveSpellItems(parent: Item, w: World, refs: seq<SpellRef>) returns (m: JsMap<Item>)
    ensures m == ResolveAll(parent, w, refs)
  {
    ghost var rs := ResolveEach(parent, w, refs);
    assert rs[..0] == [] && rs[..|rs|] == rs;
    m := [];
    for i := 0 to |refs|
      invariant m == Collect(rs[..i], ItemId)
    {
      var child := GetChildItem(parent, w, refs[i]);
      assert child == rs[i] && child.id == ItemId(rs[i]);
      CollectSnoc(rs, ItemId, i);
      m := Set(m, child.id, child);
    }
  }

  /** One manager per parent item: the parent and the two memo caches. `None` stands for `null`. */
  class ItemSpellManager {
    var item: Item
    var flagMap: Option<JsMap<SpellRef>>
    var spellItems: Option<JsMap<Item>>

    constructor (item: Item)
      ensures this.item == item && flagMap.None? && spellItems.None?
    {
      this.item := item;
      flagMap := None;
      spellItems := None;
    }

    /** Both caches hold exactly what the current reference list gives against `w`. */
    ghost predicate Fresh(w: World)
      reads this
    {
      && flagMap == Some(FlagMapOf(SpellList(item)))
      && spellItems == Some(ResolveAll(item, w, SpellList(item)))
    }

    /** `_getItemSpellFlagMap()`: rebuilds the flag map and caches it. */
    method BuildFlagMap() returns (m: JsMap<SpellRef>)
      modifies this
      ensures m == FlagMapOf(SpellList(item)) && flagMap == Some(m)
      ensures item == old(item) && spellItems == old(spellItems)
    {
      m := CollectFlagMap(SpellList(item));
      flagMap := Some(m);
    }

    /** The `itemSpellFlagMap` getter: the cached map while there is one, else a rebuilt one. */
    method ItemSpellFlagMap() returns (m: JsMap<SpellRef>)
      modifies this
      ensures old(flagMap).Some? ==> m == old(flagMap).value
      ensures old(flagMap).None? ==> m == FlagMapOf(SpellList(item))
      ensures flagMap == Some(m) && item == old(item) && spellItems == old(spellItems)
    {
      if flagMap.None? {
        m := BuildFlagMap();
      } else {
        m := flagMap.value;
      }
    }

    /** `_getItemSpellItems()`: resolves every reference in order and caches the spell map. */
    method BuildSpellItemMap(w: World) returns (m: JsMap<Item>)
      modifies this
      ensures m == ResolveAll(item, w, SpellList(item)) && spellItems == Some(m)
      ensures item == old(item) && flagMap == old(flagMap)
    {
      m := ResolveSpellItems(item, w, SpellList(item));
      spellItems := Some(m);
    }

    /** The `itemSpellItemMap` getter, awaited: the cached map while there is one, else a rebuilt one. */
    method ItemSpellItemMap(w: World) returns (m: JsMap<Item>)
      modifies this
      ensures old(spellItems).Some? ==> m == old(spellItems).value
      ensures old(spellItems).None? ==> m == ResolveAll(item, w, SpellList(item))
      ensures spellItems == Some(m) && item == old(item) && flagMap == old(flagMap)
    {
      if spellItems.None? {
        m := BuildSpellItemMap(w);
      } else {
        m := spellItems.value;
      }
    }

    /** `refresh()`: rebuilds both caches. */
    method Refresh(w: World)
      modifies this
      ensures Fresh(w) && item == old(item)
    {
      var _ := BuildFlagMap();
      var _ := BuildSpellItemMap(w);
    }

    /** `addSpellToItem(providedUuid)`. On an embedded parent the source is first copied onto
        the actor (with the id `newId` the host chooses) and the copy's uuid is attached. */
    method AddSpellToItem(w: World, providedUuid: string, newId: string) returns (w': World, added: bool)
      modifies this
      ensures old(item).actor.Some? && FromUuid(w, providedUuid).None? ==>
                !added && w' == w && item == old(item) && flagMap == old(flagMap) && spellItems == old(spellItems)
      ensures old(item).actor.None? ==>
                && added
                && item == old(item).(itemSpells := Some(SpellList(old(item)) + [SpellRef(providedUuid, None, None)]))
                && w' == SaveItem(w, item)
      ensures old(item).actor.Some? && FromUuid(w, providedUuid).Some? ==>
                var spell := FromUuid(w, providedUuid).value;
                var made := Embed(ApplyFlagFix(spell, FlagFixFor(old(item).uuid, spell)), old(item).actor.value, newId);
                && added
                && made.parentItem == Some(old(item).uuid)
                && item == old(item).(itemSpells := Some(SpellList(old(item)) + [SpellRef(made.uuid, None, None)]))
                && w' == SaveItem(AddEmbedded(w, old(item).actor.value, made), item)
      ensures added ==> Fresh(w')
    {
      var uuid := providedUuid;
      var w1 := w;
      if item.actor.Some? {
        var spell := FromUuid(w, uuid);
        if spell.None? {
          return w, false;
        }
        var changes := FlagFixFor(item.uuid, spell.value);
        var adjusted := ApplyFlagFix(spell.value, changes);
        var made := Embed(adjusted, item.actor.value, newId);
        w1 := AddEmbedded(w, item.actor.value, made);
        uuid := made.uuid;
      }
      var itemSpells := SpellList(item) + [SpellRef(uuid, None, None)];
      item := item.(itemSpells := Some(itemSpells));
      w' := SaveItem(w1, item);
      Refresh(w');
      added := true;
    }

    /** `removeSpellFromItem(itemId, {alsoDeleteEmbeddedSpell})`; `confirmed` is the answer the
        confirmation dialog would give, which is asked only when deletion is requested. */
    method RemoveSpellFromItem(w: World, itemId: string, alsoDelete: bool, confirmed: bool)
      returns (w': World, outcome: Removal)
      modifies this
      ensures old(spellItems).None? ==>
                && outcome == RemoveTypeError && w' == w && item == old(item) && flagMap == old(flagMap)
                && spellItems == Some(ResolveAll(item, w, SpellList(item)))
      ensures old(spellItems).Some? && Get(old(spellItems).value, itemId).None? ==>
                && outcome == RemoveTypeError && w' == w && item == old(item)
                && flagMap == old(flagMap) && spellItems == old(spellItems)
      ensures old(spellItems).Some? && Get(old(spellItems).value, itemId).Some? ==>
                var target := Get(old(spellItems).value, itemId).value;
                var gone := RemovalUuid(old(item), target);
                && item == old(item).(itemSpells := Some(KeepOthers(SpellList(old(item)), gone)))
                && spellItems == Some(Delete(old(spellItems).value, itemId))
                && flagMap == (if old(flagMap).Some? then Some(Delete(old(flagMap).value, itemId)) else None)
                && (old(item).actor.None? ==> outcome == Unlinked && w' == SaveItem(w, item))
                && (old(item).actor.Some? ==>
                      var w1 := SaveItem(w, item);
                      match FromUuid(w1, target.uuid)
                      case None => outcome == Unlinked && w' == w1
                      case Some(s) =>
                        if alsoDelete && confirmed then outcome == SpellDeleted(s) && w' == RemoveDocs(w1, {s.uuid})
                        else outcome == SpellUnflagged(s.(parentItem := None)) && w' == SaveItem(w1, s.(parentItem := None)))
      ensures outcome != RemoveTypeError ==> itemId !in KeySet(spellItems.value)
    {
      var cold := spellItems.None?;
      var items := ItemSpellItemMap(w);
      if cold {
        // the getter hands back a pending promise, which has no `get`
        return w, RemoveTypeError;
      }
      var target := Get(items, itemId);
      if target.None? {
        return w, RemoveTypeError;
      }
      var uuidToRemove := RemovalUuid(item, target.value);
      var newItemSpells := KeepOthers(SpellList(item), uuidToRemove);
      spellItems := Some(Delete(items, itemId));
      if flagMap.Some? {
        flagMap := Some(Delete(flagMap.value, itemId));
      }
      item := item.(itemSpells := Some(newItemSpells));
      w' := SaveItem(w, item);
      if item.actor.None? {
        return w', Unlinked;
      }
      var spellItem := FromUuid(w', target.value.uuid);
      if spellItem.None? {
        return w', Unlinked;
      }
      var shouldDeleteSpell := alsoDelete && confirmed;
      if shouldDeleteSpell {
        w' := RemoveDocs(w', {spellItem.value.uuid});
        outcome := SpellDeleted(spellItem.value);
      } else {
        var unflagged := spellItem.value.(parentItem := None);
        w' := SaveItem(w', unflagged);
        outcome := SpellUnflagged(unflagged);
      }
    }

    /** `updateItemSpellOverrides(itemId, overrides)`: the record under `itemId` takes
        `overrides` wholesale as its `changes`; the flag map's values are written back. */
    method UpdateItemSpellOverrides(w: World, itemId: string, overrides: Changes) returns (w': World, ok: bool)
      modifies this
      ensures var fm := if old(flagMap).Some? then old(flagMap).value else FlagMapOf(SpellList(old(item)));
              && (ok <==> itemId in KeySet(fm))
              && (!ok ==> w' == w && item == old(item) && flagMap == Some(fm) && spellItems == old(spellItems))
              && (ok ==>
                    && item == old(item).(itemSpells := Some(Values(Set(fm, itemId, Get(fm, itemId).value.(changes := Some(overrides))))))
                    && w' == SaveItem(w, item)
                    && Fresh(w'))
    {
      var fm := ItemSpellFlagMap();
      var toUpdate := Get(fm, itemId);
      if toUpdate.None? {
        // `undefined.changes = …` throws
        return w, false;
      }
      var updated := toUpdate.value.(changes := Some(overrides));
      fm := Set(fm, itemId, updated);
      flagMap := Some(fm);
      var newItemSpellsFlagValue := Values(fm);
      item := item.(itemSpells := Some(newItemSpellsFlagValue));
      w' := SaveItem(w, item);
      Refresh(w');
      ok := true;
    }
  }
}
