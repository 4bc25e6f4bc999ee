/** The item documents and override patches that the spell relationship works on.
    Only the fields that the item and actor hooks read or write are modelled. */
module Documents {

  datatype Option<+T> = None | Some(value: T)

  /** A scalar flag or system value as the host stores it: a string or a number. */
  datatype Value = Str(s: string) | Num(n: int)

  /** JavaScript truthiness of a possibly absent scalar: absent, "" and 0 are falsy. */
  predicate Truthy(v: Option<Value>) {
    match v
    case None => false
    case Some(Str(s)) => s != ""
    case Some(Num(n)) => n != 0
  }

  /** `system.attack`: its bonus and whether the bonus is flat. */
  datatype Attack = Attack(bonus: Option<Value>, flat: Option<bool>)

  /** `system.uses`: the limited-use maximum (a formula) and the current value. */
  datatype Uses = Uses(max: Option<Value>, value: Option<Value>)

  /** `system.consume`: how much is consumed, of what kind, from which target. */
  datatype Consume = Consume(amount: Option<Value>, kind: Option<string>, target: Option<string>)

  /** The `system` record of an item. */
  datatype ItemSystem = ItemSystem(
    attackBonus: Option<Value>,
    attack: Attack,
    uses: Uses,
    consume: Consume,
    preparationMode: Option<string>,
    description: string,
    identified: Option<bool>)

  /** The `system` part of an override patch: every field is optional; a present
      sub-record is merged field by field. */
  datatype SystemPatch = SystemPatch(
    attackBonus: Option<Value>,
    attack: Option<Attack>,
    uses: Option<Uses>,
    consume: Option<Consume>,
    preparationMode: Option<string>)

  /** The `changes` of a spell reference. */
  datatype Changes = Changes(system: Option<SystemPatch>)

  /** One entry of a parent's `item-spells` flag: `{uuid, id?, changes?}`. */
  datatype SpellRef = SpellRef(uuid: string, id: Option<string>, changes: Option<Changes>)

  /** An item document. `actor` is the uuid of the owning actor (the item is
      embedded exactly when it is present); the flag fields are
      `flags.items-with-spells-5e.parent-item`, `…item-spells`, the known-uuid
      flag and `flags.tidy5e-sheet.section`. */
  datatype Item = Item(
    id: string,
    uuid: string,
    kind: string,
    name: string,
    img: string,
    actor: Option<string>,
    parentItem: Option<string>,
    knownUuid: Option<string>,
    tidySection: Option<Value>,
    itemSpells: Option<seq<SpellRef>>,
    system: ItemSystem)

  const EmptyPatch := SystemPatch(None, None, None, None, None)

  function Over<T>(base: Option<T>, patch: Option<T>): Option<T> {
    if patch.Some? then patch else base
  }

  function MergeAttack(a: Attack, p: Option<Attack>): Attack {
    match p
    case None => a
    case Some(q) => Attack(Over(a.bonus, q.bonus), Over(a.flat, q.flat))
  }

  function MergeUses(u: Uses, p: Option<Uses>): Uses {
    match p
    case None => u
    case Some(q) => Uses(Over(u.max, q.max), Over(u.value, q.value))
  }

  function MergeConsume(c: Consume, p: Option<Consume>): Consume {
    match p
    case None => c
    case Some(q) => Consume(Over(c.amount, q.amount), Over(c.kind, q.kind), Over(c.target, q.target))
  }

  /** The deep merge of a patch into a system record: a field the patch sets wins,
      every other field keeps its value. */
  function MergeSystem(s: ItemSystem, p: SystemPatch): ItemSystem {
    s.(attackBonus := Over(s.attackBonus, p.attackBonus),
       attack := MergeAttack(s.attack, p.attack),
       uses := MergeUses(s.uses, p.uses),
       consume := MergeConsume(s.consume, p.consume),
       preparationMode := Over(s.preparationMode, p.preparationMode))
  }

  /** `uuid.split('.').pop()`: the text after the last '.', or all of it. */
  function LastSegment(s: string): (r: string)
    ensures '.' !in r
    ensures |r| <= |s| && r == s[|s| - |r|..]
    ensures |r| < |s| ==> s[|s| - |r| - 1] == '.'
    decreases |s|
  {
    if |s| == 0 || s[|s| - 1] == '.' then "" else LastSegment(s[..|s| - 1]) + [s[|s| - 1]]
  }

  /** The segment after a '.' separator is what `LastSegment` extracts. */
  lemma {:induction false} LastSegmentOfJoin(a: string, b: string)
    requires '.' !in b
    ensures LastSegment(a + "." + b) == b
    decreases |b|
  {
    var s := a + "." + b;
    if b != [] {
      var b' := b[..|b| - 1];
      assert s[..|s| - 1] == a + "." + b';
      LastSegmentOfJoin(a, b');
      assert b' + [b[|b| - 1]] == b;
    } else {
      assert s[|s| - 1] == '.';
    }
  }
}
