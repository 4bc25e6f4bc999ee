/** The host's document store, reduced to what the relationship engine asks of it:
    look a document up by uuid (`fromUuid`), create documents on an actor
    (`createEmbeddedDocuments`), delete documents, and persist an updated document. */
module Host {
  import opened Documents

  /** An actor: its type and the uuids of its items, in collection order. */
  datatype Actor = Actor(uuid: string, kind: string, items: seq<string>)

  /** Every document by uuid, and every actor by uuid. */
  datatype World = World(docs: map<string, Item>, actors: map<string, Actor>)

  /** `fromUuid(uuid)`: the document, or nothing when the uuid points nowhere. */
  function FromUuid(w: World, uuid: string): (r: Option<Item>)
    ensures r.Some? <==> uuid in w.docs
    ensures r.Some? ==> r.value == w.docs[uuid]
  {
    if uuid in w.docs then Some(w.docs[uuid]) else None
  }

  /** The uuid of the item with id `id` embedded in the actor with uuid `actorUuid`. */
  function EmbeddedUuid(actorUuid: string, id: string): string {
    actorUuid + ".Item." + id
  }

  /** An embedded item's id is the last segment of its uuid. */
  lemma EmbeddedUuidSegment(actorUuid: string, id: string)
    requires '.' !in id
    ensures LastSegment(EmbeddedUuid(actorUuid, id)) == id
  {
    assert EmbeddedUuid(actorUuid, id) == (actorUuid + ".Item") + "." + id;
    LastSegmentOfJoin(actorUuid + ".Item", id);
  }

  /** Distinct ids on one actor give distinct uuids. */
  lemma EmbeddedUuidInjective(actorUuid: string, x: string, y: string)
    ensures EmbeddedUuid(actorUuid, x) == EmbeddedUuid(actorUuid, y) ==> x == y
  {
    var p := actorUuid + ".Item.";
    assert EmbeddedUuid(actorUuid, x) == p + x && EmbeddedUuid(actorUuid, y) == p + y;
    assert (p + x)[|p|..] == x && (p + y)[|p|..] == y;
  }

  /** The documents named by `uuids` that exist, in order. */
  function Present(docs: map<string, Item>, uuids: seq<string>): (r: seq<Item>)
    ensures forall it :: it in r <==> exists u :: u in uuids && u in docs && docs[u] == it
    decreases |uuids|
  {
    if uuids == [] then []
    else
      var rest := Present(docs, uuids[1..]);
      assert forall u :: u in uuids <==> u == uuids[0] || u in uuids[1..];
      (if uuids[0] in docs then [docs[uuids[0]]] else []) + rest
  }

  /** `actor.items` for the actor with uuid `actorUuid`, when there is such an actor. */
  function ActorItems(w: World, actorUuid: string): Option<seq<Item>> {
    if actorUuid in w.actors then Some(Present(w.docs, w.actors[actorUuid].items)) else None
  }

  /** `update(…)` / `setFlag(…)` of a document: the store holds the new version. */
  function SaveItem(w: World, it: Item): World {
    w.(docs := w.docs[it.uuid := it])
  }

  /** The document that `createEmbeddedDocuments` makes from `data` on an actor, given the id the host chose. */
  function Embed(data: Item, actorUuid: string, id: string): (it: Item)
    ensures it.id == id && it.uuid == EmbeddedUuid(actorUuid, id) && it.actor == Some(actorUuid)
    ensures it.(id := data.id, uuid := data.uuid, actor := data.actor) == data
  {
    data.(id := id, uuid := EmbeddedUuid(actorUuid, id), actor := Some(actorUuid))
  }

  /** Adds a created item to the store and to its actor's collection. */
  function AddEmbedded(w: World, actorUuid: string, it: Item): World {
    World(w.docs[it.uuid := it],
          if actorUuid in w.actors
          then w.actors[actorUuid := w.actors[actorUuid].(items := w.actors[actorUuid].items + [it.uuid])]
          else w.actors)
  }

  /** `actor.createEmbeddedDocuments("Item", datas)`: the i-th document gets the host's id `mintId(i)`. */
  function CreateMany(w: World, actorUuid: string, datas: seq<Item>, mintId: nat -> string): (r: (World, seq<Item>))
    ensures |r.1| == |datas|
    ensures forall i :: 0 <= i < |datas| ==> r.1[i] == Embed(datas[i], actorUuid, mintId(i))
    decreases |datas|
  {
    if datas == [] then (w, [])
    else
      var (w1, made) := CreateMany(w, actorUuid, datas[..|datas| - 1], mintId);
      var it := Embed(datas[|datas| - 1], actorUuid, mintId(|datas| - 1));
      (AddEmbedded(w1, actorUuid, it), made + [it])
  }

  /** After a batch creation whose uuids are fresh and pairwise distinct, each created item is what its uuid resolves to. */
  lemma {:induction false} CreateManyResolves(w: World, actorUuid: string, datas: seq<Item>, mintId: nat -> string, i: nat)
    requires i < |datas|
    requires forall a, b :: 0 <= a < b < |datas| ==> mintId(a) != mintId(b)
    ensures var (w', made) := CreateMany(w, actorUuid, datas, mintId);
            FromUuid(w', made[i].uuid) == Some(made[i])
    decreases |datas|
  {
    var n := |datas| - 1;
    var (w1, made) := CreateMany(w, actorUuid, datas[..n], mintId);
    var it := Embed(datas[n], actorUuid, mintId(n));
    if i < n {
      CreateManyResolves(w, actorUuid, datas[..n], mintId, i);
      EmbeddedUuidInjective(actorUuid, mintId(i), mintId(n));
    }
  }

  /** A batch creation leaves every existing document at a non-minted uuid as it was. */
  lemma {:induction false} CreateManyDocs(w: World, actorUuid: string, datas: seq<Item>, mintId: nat -> string, u: string)
    requires forall i :: 0 <= i < |datas| ==> EmbeddedUuid(actorUuid, mintId(i)) != u
    ensures u in w.docs ==> u in CreateMany(w, actorUuid, datas, mintId).0.docs
                            && CreateMany(w, actorUuid, datas, mintId).0.docs[u] == w.docs[u]
    decreases |datas|
  {
    if datas != [] {
      CreateManyDocs(w, actorUuid, datas[..|datas| - 1], mintId, u);
    }
  }

  /** `uuids` without the members of `gone`, in order. */
  function Without(uuids: seq<string>, gone: set<string>): (r: seq<string>)
    ensures forall u :: u in r <==> u in uuids && u !in gone
    decreases |uuids|
  {
    if uuids == [] then []
    else
      assert forall u :: u in uuids <==> u == uuids[0] || u in uuids[1..];
      (if uuids[0] in gone then [] else [uuids[0]]) + Without(uuids[1..], gone)
  }

  /** Deletes the documents `gone` from the store and from every actor's collection. */
  function RemoveDocs(w: World, gone: set<string>): (r: World)
    ensures r.docs.Keys == w.docs.Keys - gone
    ensures forall u :: u in r.docs ==> r.docs[u] == w.docs[u]
    ensures r.actors.Keys == w.actors.Keys
    ensures forall a :: a in w.actors ==> r.actors[a] == w.actors[a].(items := Without(w.actors[a].items, gone))
  {
    World(map u | u in w.docs && u !in gone :: w.docs[u],
          map a | a in w.actors :: w.actors[a].(items := Without(w.actors[a].items, gone)))
  }

  /** `actor.deleteEmbeddedDocuments("Item", ids)`: the actor's items whose id is listed go. */
  function DeleteEmbedded(w: World, actorUuid: string, ids: seq<string>): (r: World)
    ensures actorUuid !in w.actors ==> r == w
    ensures forall u :: u in r.docs <==>
              u in w.docs && !(actorUuid in w.actors && u in w.actors[actorUuid].items && w.docs[u].id in ids)
    ensures forall u :: u in r.docs ==> r.docs[u] == w.docs[u]
    ensures r.actors.Keys == w.actors.Keys
  {
    if actorUuid !in w.actors then w
    else RemoveDocs(w, set u | u in w.actors[actorUuid].items && u in w.docs && w.docs[u].id in ids)
  }
}
