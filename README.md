# Items with Spells 5e — the item–spell relationship, modelled in Dafny

The Foundry VTT module *Items with Spells 5e* lets a parent item (a wand, a ring, a
feat) carry a list of spell references. Each reference is `{uuid, id?, changes?}`:
the spell's source uuid and an optional override patch. This project models the
module's relationship engine and proves properties about it.

- **The parent's manager** (`ItemsWithSpells5eItem`, module `ItemSpells`, class
  `ItemSpellManager`):
  - it reads the reference list;
  - it keeps two memo caches: the *flag map* (trailing uuid segment → reference)
    and the *spell map* (child id → resolved spell);
  - it resolves one reference into a spell: a placeholder, the owned spell itself,
    or a synthesized copy with the overrides and housekeeping flags;
  - it attaches a spell, detaches a spell and replaces a spell's overrides;
  - the static query `getItemSpells` lists a parent's spells.
- **The actor cascade** (`ItemsWithSpells5eActor`, module `ActorHooks`):
  - when a parent is deleted from an actor, the items that name it as parent are
    collected, and the confirmation policy decides whether they are deleted too;
  - when a parent is created on an actor, its referenced spells are built, created
    on the actor beside it, and the parent's list is rewritten to point at them.

Supporting modules:

- `Documents`: items, override patches and their field-wise merge.
- `JsMaps`: JavaScript `Map`s as insertion-ordered entry lists. The order matters
  because the override update writes the map's values back as the new list.
- `Host`: the document store. `fromUuid` is a lookup in a `map` from uuid to item.
  Creation gives each new item the id the host chooses, passed in as `newId` or
  `mintId(i)`. Deletion removes documents from the store and from their actor.

Rules about the host:

- An item is embedded exactly when its `actor` field names an actor.
- Its parent flag is `parentItem`.
- A parent is named by its id or by its uuid (`NamesParent`).
- `Dialog.confirm` is a boolean parameter (`confirmed`, `answer`).
- `dnd5e.utils.simplifyBonus` with the parent's roll data is a function parameter
  (`simplify`).
- `Promise.all` fan-outs run sequentially, in list order.

`scripts/classes/defaults.js` is not part of this model. Its helpers are modelled as
their uses imply:

- `getSpellParentId(item)` is the item's parent flag.
- `isIwsItem(item)` is the item's reference list when it is non-empty, and nothing
  otherwise (`IwsSpells`).
- `isIncludedItemType(type)` is false for the types in `EXCLUDED_TYPES`
  (scripts/classes/settings.mjs:4-14). For any other type it is the world's
  per-type setting, passed in as `enabledTypes`.

The model follows the code as written; in particular:

- **Detach error cases.** `removeSpellFromItem` with an id that is not in the spell
  map throws a `TypeError` (`itemToDelete.uuid` of `undefined`). It is not a no-op.
  It also throws when the spell map is cold: the getter then hands back a pending
  promise, which has no `get`. The rebuild it started still fills the cache. In the
  model both cases end in `RemoveTypeError`, and the cold case leaves a warm cache.
- **`uses.max` in item.js.** Resolving a reference in item.js does not evaluate a
  `uses.max` override. Only the creation cascade in actor.js sets `uses.value`.
- **How each file names the parent.** item.js stamps a synthesized spell with the
  parent's **uuid**. actor.js stamps created spells with the parent's **id**.
  Both are recognised as naming the parent.
- **The `getItemSpells` test.** `providedItems ?? embeddedOnly ? … : false` groups as
  `(providedItems ?? embeddedOnly) ? … : false`. This is reproduced literally, so
  `embeddedOnly` with the default `providedItems` always returns `null`.
- **Detaching a copy on an owned parent.** On an embedded parent, a reference whose source does not
  name the parent resolves to a temporary copy whose uuid sits under the actor
  (`<actor>.Item.<id>`). `removeSpellFromItem` filters the list by that uuid. For a compendium
  source the reference's uuid is different, so the filter keeps the reference and nothing is
  detached (`EmbeddedCopyStaysAttached`, `CompendiumSourceOnActor`). A reference to an owned
  spell that was deleted does match, because the placeholder's uuid is the reference's own
  (`RemovalUuidOfResolved`).
- **The `updateItemSpellOverrides` write-back.** It rebuilds the list from the flag
  map's values. References that share a trailing uuid segment therefore collapse to
  one (`DuplicateSegmentsCollapse`).

## Model

| member | source | states |
|---|---|---|
| Documents.LastSegment | scripts/classes/item.js:160 | `uuid.split('.').pop()` is the suffix after the last '.', or the whole string; it contains no '.' |
| Documents.LastSegmentOfJoin | scripts/classes/item.js:160 | the segment after a '.' separator is what the split extracts |
| JsMaps.Get | scripts/classes/item.js:268 | `map.get(k)` is absent exactly when `k` is not a key of the map |
| JsMaps.Set | scripts/classes/item.js:270 | after `map.set(k, v)`, `k` maps to `v` and every other key is unchanged; a present key keeps its place, a new key is appended; keys stay distinct |
| JsMaps.Delete | scripts/classes/item.js:239-240 | after `map.delete(k)`, `k` is gone and every other key is unchanged; deleting an absent key changes nothing |
| JsMaps.Values | scripts/classes/item.js:271 | `[...map.values()]` lists the values in entry order |
| JsMaps.Collect | scripts/classes/item.js:158-162 | a map filled by `set` in a loop never holds a key twice |
| JsMaps.CollectKeys | scripts/classes/item.js:158-162 | the keys of a filled map are exactly the keys of the values put in |
| JsMaps.LastIndexWithKey | scripts/classes/item.js:158-162 | reference definition: the position of the last value with key `k`, which is -1 exactly when no value has that key |
| JsMaps.CollectSnoc | scripts/classes/item.js:161 | filling the map with one more value is one more `set` |
| JsMaps.CollectGet | scripts/classes/item.js:158-162 | looking up a key in a filled map gives the last value put in under that key, and nothing when there is none |
| JsMaps.CollectDistinctValues | scripts/classes/item.js:271 | when no two values share a key, the values read back are the values put in, in order |
| JsMaps.SetPresent | scripts/classes/item.js:270 | re-setting a present key replaces its entry in place, leaving every other entry where it was |
| JsMaps.SetPresentValues | scripts/classes/item.js:270-271 | re-setting a present key replaces its value where it stands in `values()` |
| JsMaps.CollectKeyed | scripts/classes/item.js:161 | every entry of a filled map sits under its own value's key |
| JsMaps.SetKeepsEntries | scripts/classes/item.js:161 | after `set` every entry is the new one or one that was there |
| Host.FromUuid | scripts/classes/item.js:84 | `fromUuid` finds a document exactly when the store holds that uuid |
| Host.EmbeddedUuidSegment | scripts/classes/item.js:160 | the trailing segment of an embedded item's uuid is its id |
| Host.EmbeddedUuidInjective | scripts/classes/actor.js:76 | distinct ids on one actor give distinct uuids |
| Host.Present | scripts/classes/actor.js:28 | `actor.items` holds exactly the actor's listed documents that exist |
| Host.Embed | scripts/classes/actor.js:76 | a created document takes the host's id, its uuid under the actor and the actor as parent; every other field is the data's |
| Host.CreateMany | scripts/classes/actor.js:76 | `createEmbeddedDocuments` returns one document per datum, in order, the i-th with the i-th id |
| Host.CreateManyResolves | scripts/classes/actor.js:76 | with pairwise-distinct ids, each created document is what its uuid then resolves to |
| Host.CreateManyDocs | scripts/classes/actor.js:76 | a batch creation leaves every other existing document as it was |
| Host.Without | scripts/classes/item.js:258 | a deleted uuid leaves the actor's item list, and every other uuid stays |
| Host.RemoveDocs | scripts/classes/item.js:258 | deleting documents removes exactly those from the store, keeps the rest unchanged, and takes them out of every actor's item list |
| Host.DeleteEmbedded | scripts/classes/actor.js:43 | `deleteEmbeddedDocuments` removes exactly the actor's items whose id is listed, keeps every other document unchanged, and does nothing for an unknown actor |
| ItemSpells.FakeEmptySpell | scripts/classes/item.js:9-26 | the placeholder is a spell named `IWS.MISSING_ITEM` with the hazard icon and the missing-item description, whose id is the trailing segment of the unresolved uuid |
| ItemSpells.SpellList | scripts/classes/item.js:54-56 | an unset flag reads as the empty list, a set one as itself |
| ItemSpells.FlagMapSpec | scripts/classes/item.js:157-165 | a segment has a flag-map entry iff some reference has that trailing segment, and the entry is the last such reference |
| ItemSpells.FlagFixFor | scripts/classes/item.js:172-182 | the housekeeping stamps: parent flag = the parent's uuid, preparation mode "atwill", and a section flag cleared exactly when the source's is truthy |
| ItemSpells.ApplyFlagFix | scripts/classes/item.js:107 | merging the stamps sets exactly the parent flag, preparation mode and (when asked) the section flag, and leaves everything else |
| ItemSpells.NormalizeAttack | scripts/classes/item.js:97-104 | a truthy `attackBonus` without `attack` becomes `attack = {bonus, flat: true}`; otherwise a truthy `attack.bonus` gets `flat: true`; otherwise nothing changes; no other field changes |
| ItemSpells.NormalizeAttackIdempotent | scripts/classes/item.js:97-104 | normalizing an already normalized patch changes nothing |
| ItemSpells.ConsumeFromParent | scripts/classes/item.js:113-118 | a truthy consume amount sets consume type "charges" and target = the parent's id; otherwise nothing changes |
| ItemSpells.ResolveChild | scripts/classes/item.js:82-128 | an unresolved uuid gives the placeholder, keyed by the uuid's segment; a source already naming the parent by id or uuid is returned as is; any other copy carries knownUuid = the reference uuid, parent = the parent's uuid, preparation "atwill", the parent's actor, and a cleared section flag when the source had one |
| ItemSpells.SynthesizedOverrides | scripts/classes/item.js:96-125 | in a synthesized copy the adjusted overrides win field by field (attack, consume from the parent, uses), and the description is the source's |
| ItemSpells.ResolveEach | scripts/classes/item.js:137-146 | resolution runs once per reference, in list order |
| ItemSpells.ResolveAllSpec | scripts/classes/item.js:134-150 | an id has a spell-map entry iff some reference resolves to a spell with that id, and the entry is the last such spell |
| ItemSpells.CachesShareKeys | scripts/classes/item.js:143 | when every stored document's id is its uuid's trailing segment, the spell map and the flag map have the same keys |
| ItemSpells.KeepOthers | scripts/classes/item.js:236 | the filter never lengthens the list; which references it keeps is `KeepOthersMembers` |
| ItemSpells.KeepOthersMembers | scripts/classes/item.js:236 | the filter keeps exactly the references whose uuid differs from the removed one |
| ItemSpells.KeepOthersAppend | scripts/classes/item.js:236 | the filter distributes over concatenation, so the survivors keep their order |
| ItemSpells.KeepOthersNoMatch | scripts/classes/item.js:236 | a filter that matches nothing leaves the list unchanged |
| ItemSpells.RemovalUuidOfResolved | scripts/classes/item.js:232-236 | the uuid dropped for a resolved spell is its reference's uuid: the recorded source uuid on an unowned parent; the owned spell's own uuid on an embedded parent; and on an embedded parent whose owned spell is gone, the placeholder's uuid, so the dangling reference can still be removed |
| ItemSpells.EmbeddedCopyStaysAttached | scripts/classes/item.js:232-236 | on an embedded parent, a reference resolving to a synthesized copy is detached by the copy's temporary uuid under the actor; when that differs from the reference's uuid, the filter keeps the reference |
| ItemSpells.CompendiumSourceOnActor | scripts/classes/item.js:120-124 | a compendium source `Compendium.s.Item.x` on actor `Actor.a` gets the temporary uuid `Actor.a.Item.x`, which is not the reference's uuid |
| ItemSpells.AttachDetachRoundTrip | scripts/classes/item.js:211-236 | on an unowned parent, detaching the spell that an attach produced gives back the original list; in the code this holds for the uuids and their order, while the saved `changes` of the survivors carry resolution's in-memory mutations (see "Left out") |
| ItemSpells.DistinctFlagMapGet | scripts/classes/item.js:268 | when segments are distinct, each reference is what its own segment looks up |
| ItemSpells.UpdateOverridesReplacesOne | scripts/classes/item.js:267-271 | when segments are distinct, the written-back list is the old list with only the target record's `changes` replaced, wholesale |
| ItemSpells.DuplicateSegmentsCollapse | scripts/classes/item.js:157-165 | two references from different packs with one id collapse to the later one in the written-back values |
| ItemSpells.BackReferencing | scripts/classes/item.js:306-310 | the query keeps exactly the items whose parent flag names the parent by id or uuid |
| ItemSpells.ReadsActorItems | scripts/classes/item.js:301 | the actor's items are read when a collection is passed, never by default, and with `null` exactly when `embeddedOnly` is set |
| ItemSpells.GetItemSpellsNull | scripts/classes/item.js:296-303 | a uuid that resolves nowhere is a type error, a uuid is looked up and then queried as its item, and the answer is `null` exactly when no spells are attached or `embeddedOnly` is set and the parent is not embedded or its actor's items are not read |
| ItemSpells.EmbeddedOnlyDefaultIsNull | scripts/classes/item.js:301-303 | `embeddedOnly` with the default `providedItems` never yields spells |
| ItemSpells.GetItemSpellsSpec | scripts/classes/item.js:296-315 | when the actor's items are read, the keys are exactly the ids of the actor's items naming the parent, and each id maps to the last such item with that id; otherwise, without `embeddedOnly`, the result is the spell map resolved from the list |
| ItemSpells.ItemSpellManager.constructor | scripts/classes/item.js:32-37 | a new manager holds its item and two empty caches |
| ItemSpells.CollectFlagMap | scripts/classes/item.js:157-165 | the loop over the list, one `set` per reference, builds exactly the flag map of the list |
| ItemSpells.ResolveSpellItems | scripts/classes/item.js:134-150 | the loop that resolves each reference and sets it under its id builds exactly the spell map of the list |
| ItemSpells.ItemSpellManager.BuildFlagMap | scripts/classes/item.js:157-165 | the loop builds and caches the flag map of the current list; nothing else changes |
| ItemSpells.ItemSpellManager.ItemSpellFlagMap | scripts/classes/item.js:43-49 | a warm flag map is returned unchanged; a cold one is built from the list and cached |
| ItemSpells.GetChildItem | scripts/classes/item.js:82-128 | the step-by-step resolution gives exactly `ResolveChild` |
| ItemSpells.ItemSpellManager.BuildSpellItemMap | scripts/classes/item.js:134-150 | the loop builds and caches the spell map of the current list; nothing else changes |
| ItemSpells.ItemSpellManager.ItemSpellItemMap | scripts/classes/item.js:61-67 | a warm spell map is returned unchanged; a cold one is resolved and cached |
| ItemSpells.ItemSpellManager.Refresh | scripts/classes/item.js:72-75 | both caches afterwards hold what the current list gives against the store |
| ItemSpells.ItemSpellManager.AddSpellToItem | scripts/classes/item.js:188-222 | unowned: the uuid is appended, the item saved, the caches refreshed; owned: a missing source changes nothing; otherwise a stamped copy is created on the actor and its uuid appended |
| ItemSpells.ItemSpellManager.RemoveSpellFromItem | scripts/classes/item.js:231-260 | a cold cache or an unknown id ends in a type error with nothing saved; otherwise the list loses that reference, both caches lose the id, and on an owned parent the spell is deleted if confirmed or else loses its parent flag |
| ItemSpells.ItemSpellManager.UpdateItemSpellOverrides | scripts/classes/item.js:267-285 | fails exactly when the id has no flag-map entry; otherwise that record's `changes` becomes the overrides, the map's values become the new list, and the caches are refreshed |
| ActorHooks.IwsSpells | scripts/classes/actor.js:25-26 | an item counts as having spells iff its reference list is non-empty |
| ActorHooks.ChildSpellIds | scripts/classes/actor.js:28-32 | the collected ids are exactly those of the actor's items whose parent flag is the deleted item's id or uuid |
| ActorHooks.ConfirmDeletion | scripts/classes/actor.js:37-39 | an explicit true option confirms without asking; an explicit false still asks; with no option a non-GM deleting an unidentified item confirms without asking; otherwise the dialog's answer decides |
| ActorHooks.HandleDeleteItem | scripts/classes/actor.js:20-44 | nothing happens unless all guards hold and the item has spells; no collected ids means no deletion; otherwise the collected ids are deleted in one batch iff confirmed, and the store is untouched otherwise |
| ActorHooks.CascadeLeavesNoChildren | scripts/classes/actor.js:28-43 | after a confirmed cascade no item left on the actor names the deleted parent |
| ActorHooks.FromCompendium | scripts/classes/actor.js:118 | the spell's data loses its id, uuid and parent and keeps everything else |
| ActorHooks.EvaluateUses | scripts/classes/actor.js:105-109 | a truthy `uses.max` sets `uses.value` to its simplified value; otherwise nothing changes |
| ActorHooks.AdjustPatchSpec | scripts/classes/actor.js:93-115 | the same attack normalization as item.js, `uses.value` from `uses.max`, consume from the parent's charges, nothing else touched, and adjusting twice is adjusting once |
| ActorHooks.SpellDraftSpec | scripts/classes/actor.js:89-128 | no data for an unresolved uuid; otherwise the data names the parent by its id, is prepared "atwill", drops a truthy section flag, takes the adjusted overrides field by field and keeps the rest of the source |
| ActorHooks.ChangesAfter | scripts/classes/actor.js:94-115 | the changes left on a reference carry exactly the adjusted patch, because the adjustments mutate `data.changes.system` in place |
| ActorHooks.AdjustChanges | scripts/classes/actor.js:93-115 | the in-place adjustment of the override patch, step by step, gives exactly `AdjustPatch` |
| ActorHooks.CreateSpellData | scripts/classes/actor.js:89-128 | the step-by-step build gives exactly the spell data above and what the reference's changes then hold |
| ActorHooks.Survivors | scripts/classes/actor.js:73 | the surviving positions are exactly those with spell data, in increasing order |
| ActorHooks.KeepResolved | scripts/classes/actor.js:71-73 | the filter keeps the spell data that exists, and the j-th kept override belongs to the same reference as the j-th kept spell |
| ActorHooks.WriteBack | scripts/classes/actor.js:79 | one `{uuid, id, changes}` record per created spell, in creation order, with the aligned override |
| ActorHooks.Drafts | scripts/classes/actor.js:69 | spell data is built for every reference, position by position |
| ActorHooks.CreateCascade | scripts/classes/actor.js:64-80 | the new list has one record per resolvable reference, in order, each naming the created spell's uuid and id and the changes of its own reference, and the parent is saved with that list |
| ActorHooks.HandleCreateItem | scripts/classes/actor.js:55-81 | nothing happens unless the guards hold, the type is included and the item has spells; otherwise the result is the creation cascade, computed with loops |
| ActorHooks.CreatedSpellsCarryOverrides | scripts/classes/actor.js:71-79 | with fresh distinct ids, the j-th record written back points at a stored spell built from the j-th surviving reference's data and carries that same reference's adjusted changes |
| ActorHooks.CreatedSpellsResolveAsOwned | scripts/classes/actor.js:76-80 | with fresh distinct ids, each record written back resolves, through the parent's manager, to the created spell itself, which names the parent by id |

## Left out

- Rendering, sheet re-renders, `ui.notifications`, localization, and the sheet registry's `_shouldOpenSpellsTab` flag (scripts/classes/item.js:279-284) are user-interface effects, not relationship state.
- scripts/classes/item-sheet.js, scripts/classes/item-spell-overrides.js and the settings registration in scripts/classes/settings.mjs are user interface. Only `EXCLUDED_TYPES` is kept.
- `Promise.all` concurrency is modelled as sequential iteration in list order. The confirmation dialog is a boolean parameter. Cancellation and interleaved calls are not modelled.
- Foundry's generic `mergeObject`, dotted-key expansion and `updateSource` are replaced by the typed merge of the fields these files touch: attack bonus, attack, uses, consume and preparation mode.
- `simplifyBonus` and `getRollData` formula evaluation are a function parameter, because they are foreign numerics.
- `fromCompendium` also clears folder, sort and ownership data and records the compendium source. Those fields are not modelled.
- ItemSpells.ResolveChild: does not model that resolution mutates the in-memory reference records. When a record has a `changes` object, `_getChildItem` normalizes its attack fields in place. `mergeObject` then merges the housekeeping stamps (parent flag, preparation mode, section flag, known uuid) and the consume backfill into that same object (scripts/classes/item.js:97-118). Resolution itself does not save them. The model resolves by value and leaves the records as they were.
- ItemSpells.ItemSpellManager.AddSpellToItem: does not model that the saved list `[...this.itemSpellList, {uuid}]` (scripts/classes/item.js:211-215) holds the in-memory records. When the spell map was warm, every earlier record that has `changes` is therefore saved as resolution left it: normalized attack, merged stamps, known uuid and consume backfill. The model saves the earlier records by value, unchanged.
- ItemSpells.ItemSpellManager.RemoveSpellFromItem: does not model that the saved list `this.itemSpellList.filter(...)` (scripts/classes/item.js:236-242) holds the in-memory records. The spell map is warm whenever the removal succeeds, so every surviving record that has `changes` is saved as resolution left it. The model saves the survivors by value, unchanged.
- ItemSpells.ItemSpellManager.UpdateItemSpellOverrides: does not model that the flag-map records are the in-memory flag records. The code saves `[...flagMap.values()]` (scripts/classes/item.js:271-274), so every other record that has `changes` is persisted as resolution left it in memory, with its normalized attack and the merged stamps. The model writes the other records back by value, unchanged.
- Host documents are keyed by uuid. `fromUuidSync` and `fromUuid` are the same lookup. Permission checks, compendium locking and failed writes are not modelled.
- A `getItemSpells` call with a `providedItems` value other than the default, `null` or a collection is not modelled. Only the truthiness of the value matters to the code.
- Numbers are unbounded integers (`Num(n: int)`, and `simplify` returns an `int`). Fractional values and `NaN` cannot occur, so the falsiness of `NaN` in the truthiness tests on `uses.max`, `attackBonus`, `attack.bonus` and `consume.amount` is not modelled.
