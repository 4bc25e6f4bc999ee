/** The actor-level cascade (`ItemsWithSpells5eActor`): when an item with spells is
    deleted from an actor its child spells may go with it, and when one is created on
    an actor its referenced spells are created beside it and the parent's reference
    list is rewritten to point at the new copies. */
module ActorHooks {
  import opened Documents
  import opened JsMaps
  import opened Host
  import opened ItemSpells

  /** The item types that can never carry spells. */
  const ExcludedTypes := ["class", "subclass", "background", "race", "lineage", "spell", "base", "container", "backpack"]

  /** The actor types the hooks leave alone. */
  const IgnoredActorTypes := ["group", "vehicle"]

  /** `isIncludedItemType(type)`: never an excluded type, otherwise as the world's per-type setting says. */
  predicate IsIncludedItemType(kind: string, enabledTypes: set<string>) {
    kind !in ExcludedTypes && kind in enabledTypes
  }

  /** `isIwsItem(item)`: the item's reference list when it has one, otherwise nothing. */
  function IwsSpells(item: Item): (r: Option<seq<SpellRef>>)
    ensures r.Some? <==> |SpellList(item)| > 0
    ensures r.Some? ==> r.value == SpellList(item)
  {
    if |SpellList(item)| > 0 then Some(SpellList(item)) else None
  }

  /** The three guards both hooks begin with: the acting user is this client's user, the
      item's parent is an actor, and that actor is neither a group nor a vehicle. */
  predicate HookApplies(w: World, item: Item, userId: string, currentUserId: string) {
    && userId == currentUserId
    && item.actor.Some?
    && item.actor.value in w.actors
    && w.actors[item.actor.value].kind !in IgnoredActorTypes
  }

  /** The `reduce` of `handleDeleteItem`: the ids of the items whose parent flag names `deleted`, in order. */
  function ChildSpellIds(items: seq<Item>, deleted: Item): (ids: seq<string>)
    ensures forall id :: id in ids <==> exists s :: s in items && NamesParent(s, deleted) && s.id == id
    ensures |ids| <= |items|
    decreases |items|
  {
    if items == [] then []
    else
      var rest := ChildSpellIds(items[1..], deleted);
      assert forall s :: s in items <==> s == items[0] || s in items[1..];
      (if NamesParent(items[0], deleted) then [items[0].id] else []) + rest
  }

  /** `!game.user.isGM && itemDeleted.system?.identified === false`. */
  predicate AutoConfirm(isGM: bool, deleted: Item) {
    !isGM && deleted.system.identified == Some(false)
  }

  /** Whether the confirmation dialog is shown: only when `optionOverride ?? autoConfirm` is false. */
  predicate AsksDialog(optionOverride: Option<bool>, autoConfirm: bool) {
    !(if optionOverride.Some? then optionOverride.value else autoConfirm)
  }

  /** `optionOverride ?? autoConfirm ? true : await Dialog.confirm(…)`, which groups as
      `(optionOverride ?? autoConfirm) ? true : …`; `answer` is what the dialog would return. */
  function ConfirmDeletion(optionOverride: Option<bool>, autoConfirm: bool, answer: bool): (c: bool)
    ensures optionOverride == Some(true) ==> c
    ensures optionOverride == Some(false) ==> c == answer
    ensures optionOverride.None? ==> c == (autoConfirm || answer)
    ensures !AsksDialog(optionOverride, autoConfirm) ==> c
    ensures AsksDialog(optionOverride, autoConfirm) ==> c == answer
  {
    if (if optionOverride.Some? then optionOverride.value else autoConfirm) then true else answer
  }

  /** How `handleDeleteItem` ends. */
  datatype DeleteOutcome =
    | Ignored                      // a guard failed or the item has no spells attached
    | NoChildren                   // no item on the actor names the deleted item
    | ChildrenKept(ids: seq<string>)     // the deletion was not confirmed
    | ChildrenDeleted(ids: seq<string>)  // the children were deleted in one batch

  /** `handleDeleteItem(itemDeleted, options, userId)` against the store after the deletion. */
  function HandleDeleteItem(w: World, deleted: Item, optionOverride: Option<bool>, userId: string,
                            currentUserId: string, isGM: bool, answer: bool): (r: (World, DeleteOutcome))
    ensures r.1 == Ignored <==> !(HookApplies(w, deleted, userId, currentUserId) && IwsSpells(deleted).Some?)
    ensures !r.1.ChildrenDeleted? ==> r.0 == w
    ensures r.1 != Ignored ==>
              var ids := ChildSpellIds(ActorItems(w, deleted.actor.value).value, deleted);
              && (r.1 == NoChildren <==> |ids| == 0)
              && (r.1.ChildrenDeleted? <==> |ids| > 0 && ConfirmDeletion(optionOverride, AutoConfirm(isGM, deleted), answer))
              && (r.1.ChildrenKept? || r.1.ChildrenDeleted? ==> r.1.ids == ids)
              && (r.1.ChildrenDeleted? ==> r.0 == DeleteEmbedded(w, deleted.actor.value, ids))
  {
    if !HookApplies(w, deleted, userId, currentUserId) || IwsSpells(deleted).None? then (w, Ignored)
    else
      var actor := deleted.actor.value;
      var ids := ChildSpellIds(ActorItems(w, actor).value, deleted);
      if |ids| == 0 then (w, NoChildren)
      else if ConfirmDeletion(optionOverride, AutoConfirm(isGM, deleted), answer) then
        (DeleteEmbedded(w, actor, ids), ChildrenDeleted(ids))
      else (w, ChildrenKept(ids))
  }

  /** After a confirmed cascade no item left on the actor names the deleted parent. */
  lemma CascadeLeavesNoChildren(w: World, deleted: Item, optionOverride: Option<bool>, userId: string,
                                currentUserId: string, isGM: bool, answer: bool)
    requires HandleDeleteItem(w, deleted, optionOverride, userId, currentUserId, isGM, answer).1.ChildrenDeleted?
    ensures var w' := HandleDeleteItem(w, deleted, optionOverride, userId, currentUserId, isGM, answer).0;
            forall s :: s in ActorItems(w', deleted.actor.value).value ==> !NamesParent(s, deleted)
  {
    var actor := deleted.actor.value;
    var ids := ChildSpellIds(ActorItems(w, actor).value, deleted);
    var w' := DeleteEmbedded(w, actor, ids);
    var gone := set u | u in w.actors[actor].items && u in w.docs && w.docs[u].id in ids;
    assert w' == RemoveDocs(w, gone);
    forall s | s in ActorItems(w', actor).value
      ensures !NamesParent(s, deleted)
    {
      var u :| u in w'.actors[actor].items && u in w'.docs && w'.docs[u] == s;
      assert u in w.actors[actor].items && u !in gone;
      assert s == w.docs[u];
      assert s in ActorItems(w, actor).value;
    }
  }

  /** `game.items.fromCompendium(spell)`: the source's data without its identity. */
  function FromCompendium(spell: Item): (data: Item)
    ensures data.id == "" && data.uuid == "" && data.actor.None?
    ensures data.(id := spell.id, uuid := spell.uuid, actor := spell.actor) == spell
  {
    spell.(id := "", uuid := "", actor := None)
  }

  /** A truthy `uses.max` sets `uses.value` to its value under the parent's roll data. */
  function EvaluateUses(p: SystemPatch, simplify: Value -> int): (q: SystemPatch)
    ensures p.uses.Some? && Truthy(p.uses.value.max) ==>
              q.uses == Some(p.uses.value.(value := Some(Num(simplify(p.uses.value.max.value)))))
    ensures !(p.uses.Some? && Truthy(p.uses.value.max)) ==> q == p
    ensures q.(uses := p.uses) == p
  {
    if p.uses.Some? && Truthy(p.uses.value.max) then
      p.(uses := Some(p.uses.value.(value := Some(Num(simplify(p.uses.value.max.value))))))
    else p
  }

  /** The three adjustments `_createSpellData` makes to a reference's `changes.system`. */
  function AdjustPatch(p: SystemPatch, parentId: string, simplify: Value -> int): SystemPatch {
    ConsumeFromParent(EvaluateUses(NormalizeAttack(p), simplify), parentId)
  }

  /** The adjustments touch only the attack, uses and consume fields, and adjusting an
      adjusted patch again changes nothing. */
  lemma AdjustPatchSpec(p: SystemPatch, parentId: string, simplify: Value -> int)
    ensures var q := AdjustPatch(p, parentId, simplify);
            && q.attackBonus == p.attackBonus && q.preparationMode == p.preparationMode
            && (Truthy(p.attackBonus) && p.attack.None? ==> q.attack == Some(Attack(p.attackBonus, Some(true))))
            && (!(Truthy(p.attackBonus) && p.attack.None?) && p.attack.Some? && Truthy(p.attack.value.bonus) ==>
                  q.attack == Some(p.attack.value.(flat := Some(true))))
            && (p.uses.Some? && Truthy(p.uses.value.max) ==>
                  q.uses == Some(Uses(p.uses.value.max, Some(Num(simplify(p.uses.value.max.value))))))
            && (p.consume.Some? && Truthy(p.consume.value.amount) ==>
                  q.consume == Some(Consume(p.consume.value.amount, Some(Charges), Some(parentId))))
            && AdjustPatch(q, parentId, simplify) == q
  {
  }

  /** The spell data `_createSpellData(parentItem, data)` resolves to, or nothing when the source is gone. */
  function SpellDraft(w: World, parent: Item, ref: SpellRef, simplify: Value -> int): Option<Item> {
    match FromUuid(w, ref.uuid)
    case None => None
    case Some(spell) =>
      var patch := AdjustPatch(PatchOf(ref.changes), parent.id, simplify);
      var data := FromCompendium(spell);
      Some(data.(parentItem := Some(parent.id),
                 system := MergeSystem(data.system, patch).(preparationMode := Some(AtWill)),
                 tidySection := if Truthy(spell.tidySection) then None else spell.tidySection))
  }

  /** The draft of a resolvable reference names the parent by id, is prepared at will, drops a
      section flag, takes the adjusted overrides field by field and keeps everything else. */
  lemma SpellDraftSpec(w: World, parent: Item, ref: SpellRef, simplify: Value -> int)
    ensures SpellDraft(w, parent, ref, simplify).None? <==> FromUuid(w, ref.uuid).None?
    ensures SpellDraft(w, parent, ref, simplify).Some? ==>
              var spell, d := FromUuid(w, ref.uuid).value, SpellDraft(w, parent, ref, simplify).value;
              var p := AdjustPatch(PatchOf(ref.changes), parent.id, simplify);
              && d.parentItem == Some(parent.id)
              && NamesParent(d, parent)
              && d.system.preparationMode == Some(AtWill)
              && (Truthy(spell.tidySection) ==> d.tidySection.None?)
              && (!Truthy(spell.tidySection) ==> d.tidySection == spell.tidySection)
              && d.system.attack == MergeAttack(spell.system.attack, p.attack)
              && d.system.uses == MergeUses(spell.system.uses, p.uses)
              && d.system.consume == MergeConsume(spell.system.consume, p.consume)
              && d.system.description == spell.system.description
              && d.name == spell.name && d.kind == spell.kind && d.img == spell.img
              && d.itemSpells == spell.itemSpells && d.knownUuid == spell.knownUuid
  {
  }

  /** What `data.changes` of a reference holds after `_createSpellData` has run on it: the
      adjustments are made on `data.changes.system` itself when there is one, and that is what
      is written back; otherwise they are made on a fresh object and the reference is untouched. */
  function ChangesAfter(ref: SpellRef, parentId: string, simplify: Value -> int): (c: Option<Changes>)
    ensures c.None? <==> ref.changes.None?
    ensures PatchOf(c) == AdjustPatch(PatchOf(ref.changes), parentId, simplify)
  {
    match ref.changes
    case Some(Changes(Some(p))) => Some(Changes(Some(AdjustPatch(p, parentId, simplify))))
    case _ => ref.changes
  }

  /** The adjustments of `_createSpellData`, made one after another on `changes`. */
  method AdjustChanges(p: SystemPatch, parentId: string, simplify: Value -> int) returns (changes: SystemPatch)
    ensures changes == AdjustPatch(p, parentId, simplify)
  {
    changes := p;
    if Truthy(changes.attackBonus) && changes.attack.None? {
      changes := changes.(attack := Some(Attack(changes.attackBonus, Some(true))));
    } else if changes.attack.Some? && Truthy(changes.attack.value.bonus) {
      changes := changes.(attack := Some(changes.attack.value.(flat := Some(true))));
    }
    var usesMax := if changes.uses.Some? then changes.uses.value.max else None;
    if Truthy(usesMax) {
      changes := changes.(uses := Some(changes.uses.value.(value := Some(Num(simplify(usesMax.value))))));
    }
    if changes.consume.Some? && Truthy(changes.consume.value.amount) {
      changes := changes.(consume := Some(changes.consume.value.(kind := Some(Charges), target := Some(parentId))));
    }
  }

  /** `_createSpellData(parentItem, data)`, adjusting the patch step by step. Besides the spell
      data it gives back what `data.changes` then holds. */
  method CreateSpellData(w: World, parent: Item, ref: SpellRef, simplify: Value -> int)
    returns (draft: Option<Item>, written: Option<Changes>)
    ensures draft == SpellDraft(w, parent, ref, simplify)
    ensures draft.Some? ==> written == ChangesAfter(ref, parent.id, simplify)
    ensures draft.None? ==> written == ref.changes
  {
    var spell := FromUuid(w, ref.uuid);
    if spell.None? {
      return None, ref.changes;
    }
    var changes := AdjustChanges(PatchOf(ref.changes), parent.id, simplify);
    var spellData := FromCompendium(spell.value);
    var merged := spellData.(parentItem := Some(parent.id),
                             system := MergeSystem(spellData.system, changes).(preparationMode := Some(AtWill)));
    if Truthy(spell.value.tidySection) {
      merged := merged.(tidySection := None);
    }
    draft := Some(merged);
    written := if ref.changes.Some? && ref.changes.value.system.Some? then Some(Changes(Some(changes))) else ref.changes;
  }

  /** The positions of the drafts that exist, in increasing order. */
  function Survivors(drafts: seq<Option<Item>>): (idx: seq<nat>)
    ensures forall j :: 0 <= j < |idx| ==> idx[j] < |drafts| && drafts[idx[j]].Some?
    ensures forall j, k :: 0 <= j < k < |idx| ==> idx[j] < idx[k]
    ensures forall i :: 0 <= i < |drafts| && drafts[i].Some? ==> i in idx
    decreases |drafts|
  {
    if drafts == [] then []
    else
      var init := drafts[..|drafts| - 1];
      var idx := Survivors(init);
      assert forall i :: 0 <= i < |init| ==> init[i] == drafts[i];
      if drafts[|drafts| - 1].Some? then idx + [|drafts| - 1] else idx
  }

  /** The surviving part of one more draft is the surviving part so far, and the new position when it exists. */
  lemma SurvivorsSnoc(drafts: seq<Option<Item>>, i: nat)
    requires i < |drafts|
    ensures Survivors(drafts[..i + 1]) == Survivors(drafts[..i]) + (if drafts[i].Some? then [i] else [])
  {
    assert drafts[..i + 1][..i] == drafts[..i];
  }

  /** `spells.filter((s, idx) => s ? overridesData.push(spellUuids[idx]?.changes) : false)`: the
      drafts that exist, and beside them the changes of the same positions. */
  method KeepResolved(drafts: seq<Option<Item>>, written: seq<Option<Changes>>)
    returns (spellData: seq<Item>, overridesData: seq<Option<Changes>>)
    requires |drafts| == |written|
    ensures var idx := Survivors(drafts);
            && |spellData| == |idx| && |overridesData| == |idx|
            && forall j :: 0 <= j < |idx| ==> Some(spellData[j]) == drafts[idx[j]] && overridesData[j] == written[idx[j]]
  {
    spellData, overridesData := [], [];
    var i := 0;
    while i < |drafts|
      invariant 0 <= i <= |drafts|
      invariant var idx := Survivors(drafts[..i]);
                && |spellData| == |idx| && |overridesData| == |idx|
                && forall j :: 0 <= j < |idx| ==> Some(spellData[j]) == drafts[idx[j]] && overridesData[j] == written[idx[j]]
    {
      SurvivorsSnoc(drafts, i);
      if drafts[i].Some? {
        overridesData := overridesData + [written[i]];
        spellData := spellData + [drafts[i].value];
      }
      i := i + 1;
    }
    assert drafts[..|drafts|] == drafts;
  }

  /** `spellsCreated.map((s, idx) => ({uuid: s.uuid, id: s.id, changes: overridesData[idx]}))`. */
  function WriteBack(made: seq<Item>, overrides: seq<Option<Changes>>): (refs: seq<SpellRef>)
    requires |made| == |overrides|
    ensures |refs| == |made|
    ensures forall j :: 0 <= j < |made| ==> refs[j] == SpellRef(made[j].uuid, Some(made[j].id), overrides[j])
  {
    seq(|made|, j requires 0 <= j < |made| => SpellRef(made[j].uuid, Some(made[j].id), overrides[j]))
  }

  /** The spell data for every reference, position by position. */
  function Drafts(w: World, parent: Item, refs: seq<SpellRef>, simplify: Value -> int): (ds: seq<Option<Item>>)
    ensures |ds| == |refs| && forall i :: 0 <= i < |refs| ==> ds[i] == SpellDraft(w, parent, refs[i], simplify)
  {
    seq(|refs|, i requires 0 <= i < |refs| => SpellDraft(w, parent, refs[i], simplify))
  }

  /** What the creation cascade does to the store for an item on an actor, with the new reference
      list: create the drafts that exist in one batch, then record one reference per created spell. */
  function CreateCascade(w: World, parent: Item, refs: seq<SpellRef>, simplify: Value -> int, mintId: nat -> string):
    (r: (World, seq<SpellRef>))
    requires parent.actor.Some?
    ensures var idx := Survivors(Drafts(w, parent, refs, simplify));
            && |r.1| == |idx|
            && forall j :: 0 <= j < |idx| ==>
                 && FromUuid(w, refs[idx[j]].uuid).Some?
                 && r.1[j] == SpellRef(EmbeddedUuid(parent.actor.value, mintId(j)), Some(mintId(j)),
                                       ChangesAfter(refs[idx[j]], parent.id, simplify))
    ensures FromUuid(r.0, parent.uuid) == Some(parent.(itemSpells := Some(r.1)))
  {
    var drafts := Drafts(w, parent, refs, simplify);
    var idx := Survivors(drafts);
    var spellData := seq(|idx|, j requires 0 <= j < |idx| => drafts[idx[j]].value);
    var overrides := seq(|idx|, j requires 0 <= j < |idx| => ChangesAfter(refs[idx[j]], parent.id, simplify));
    var (w1, made) := CreateMany(w, parent.actor.value, spellData, mintId);
    var ids := WriteBack(made, overrides);
    (SaveItem(w1, parent.(itemSpells := Some(ids))), ids)
  }

  /** Whether `handleCreateItem` goes past its guards. */
  predicate CreateApplies(w: World, created: Item, userId: string, currentUserId: string, enabledTypes: set<string>) {
    && HookApplies(w, created, userId, currentUserId)
    && IsIncludedItemType(created.kind, enabledTypes)
    && IwsSpells(created).Some?
  }

  /** `handleCreateItem(itemCreated, options, userId)`; `mintId(i)` is the id the host gives the
      i-th spell it creates, `simplify` evaluates a formula with the parent's roll data. */
  method HandleCreateItem(w: World, created: Item, userId: string, currentUserId: string, enabledTypes: set<string>,
                          simplify: Value -> int, mintId: nat -> string)
    returns (w': World, flag: Option<seq<SpellRef>>)
    ensures !CreateApplies(w, created, userId, currentUserId, enabledTypes) ==> w' == w && flag.None?
    ensures CreateApplies(w, created, userId, currentUserId, enabledTypes) ==>
              flag.Some? && (w', flag.value) == CreateCascade(w, created, SpellList(created), simplify, mintId)
  {
    if userId != currentUserId || created.actor.None? || created.actor.value !in w.actors
       || w.actors[created.actor.value].kind in IgnoredActorTypes {
      return w, None;
    }
    if !IsIncludedItemType(created.kind, enabledTypes) {
      return w, None;
    }
    var spellUuids := IwsSpells(created);
    if spellUuids.None? {
      return w, None;
    }
    var refs := spellUuids.value;
    var drafts: seq<Option<Item>> := [];
    var written: seq<Option<Changes>> := [];
    var i := 0;
    while i < |refs|
      invariant 0 <= i <= |refs| && |drafts| == i && |written| == i
      invariant forall k :: 0 <= k < i ==> drafts[k] == SpellDraft(w, created, refs[k], simplify)
      invariant forall k :: 0 <= k < i && drafts[k].Some? ==> written[k] == ChangesAfter(refs[k], created.id, simplify)
    {
      var d, c := CreateSpellData(w, created, refs[i], simplify);
      drafts, written := drafts + [d], written + [c];
      i := i + 1;
    }
    assert drafts == Drafts(w, created, refs, simplify);
    var spellData, overridesData := KeepResolved(drafts, written);
    ghost var idx := Survivors(drafts);
    assert spellData == seq(|idx|, j requires 0 <= j < |idx| => drafts[idx[j]].value);
    assert overridesData == seq(|idx|, j requires 0 <= j < |idx| => ChangesAfter(refs[idx[j]], created.id, simplify));
    var (w1, spellsCreated) := CreateMany(w, created.actor.value, spellData, mintId);
    var ids := WriteBack(spellsCreated, overridesData);
    w' := SaveItem(w1, created.(itemSpells := Some(ids)));
    flag := Some(ids);
  }

  /** Once the cascade has run on an embedded parent, the item manager of the updated parent
      resolves every new reference to the spell the cascade created, as the owned spell itself. */
  lemma CreatedSpellsResolveAsOwned(w: World, parent: Item, refs: seq<SpellRef>, simplify: Value -> int,
                                    mintId: nat -> string, j: nat)
    requires parent.actor.Some? && parent.uuid in w.docs
    requires forall i :: EmbeddedUuid(parent.actor.value, mintId(i)) !in w.docs
    requires forall a, b :: a < b ==> mintId(a) != mintId(b)
    requires j < |CreateCascade(w, parent, refs, simplify, mintId).1|
    ensures var (w', ids) := CreateCascade(w, parent, refs, simplify, mintId);
            var parent' := parent.(itemSpells := Some(ids));
            var spell := ResolveChild(parent', w', ids[j]);
            && FromUuid(w', ids[j].uuid) == Some(spell)
            && spell.id == mintId(j)
            && spell.actor == parent.actor
            && spell.parentItem == Some(parent.id)
  {
    var actor := parent.actor.value;
    var drafts := Drafts(w, parent, refs, simplify);
    var idx := Survivors(drafts);
    var spellData := seq(|idx|, k requires 0 <= k < |idx| => drafts[idx[k]].value);
    var (w1, made) := CreateMany(w, actor, spellData, mintId);
    var (w', ids) := CreateCascade(w, parent, refs, simplify, mintId);
    var parent' := parent.(itemSpells := Some(ids));
    CreateManyResolves(w, actor, spellData, mintId, j);
    assert FromUuid(w1, made[j].uuid) == Some(made[j]);
    CreateManyDocs(w, actor, spellData, mintId, parent.uuid);
    assert made[j].uuid != parent.uuid;
    assert ids[j].uuid == made[j].uuid;
    SpellDraftSpec(w, parent, refs[idx[j]], simplify);
    assert made[j].parentItem == Some(parent.id);
    assert NamesParent(made[j], parent');
  }

  /** With distinct ids, the j-th record written back points at a stored spell built from the
      j-th surviving reference's data, and carries that same reference's adjusted changes. */
  lemma CreatedSpellsCarryOverrides(w: World, parent: Item, refs: seq<SpellRef>, simplify: Value -> int,
                                    mintId: nat -> string, j: nat)
    requires parent.actor.Some? && parent.uuid in w.docs
    requires forall i :: EmbeddedUuid(parent.actor.value, mintId(i)) !in w.docs
    requires forall a, b :: a < b ==> mintId(a) != mintId(b)
    requires j < |CreateCascade(w, parent, refs, simplify, mintId).1|
    ensures var (w', ids) := CreateCascade(w, parent, refs, simplify, mintId);
            var src := refs[Survivors(Drafts(w, parent, refs, simplify))[j]];
            var spell := Embed(SpellDraft(w, parent, src, simplify).value, parent.actor.value, mintId(j));
            && FromUuid(w', ids[j].uuid) == Some(spell)
            && ids[j].changes == ChangesAfter(src, parent.id, simplify)
  {
    var actor := parent.actor.value;
    var drafts := Drafts(w, parent, refs, simplify);
    var idx := Survivors(drafts);
    var spellData := seq(|idx|, k requires 0 <= k < |idx| => drafts[idx[k]].value);
    var (w1, made) := CreateMany(w, actor, spellData, mintId);
    CreateManyResolves(w, actor, spellData, mintId, j);
    assert made[j] == Embed(spellData[j], actor, mintId(j));
    assert made[j].uuid != parent.uuid;
  }
}
