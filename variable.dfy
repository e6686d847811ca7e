/** The application's variable store (app/core/variable.py): a slot holds a value
    and a `changed` flag, and a table maps names to slots. The pure functions on
    `Entry` values say what the slot setter and the table operations do; the two
    classes are proved to follow them. */
module Variable {
  import opened Wrappers

  /** What a slot holds: its value and whether it changed since the last reset. */
  datatype Entry<V> = Entry(value: V, changed: bool)

  /** The value setter: a value equal to the current one changes nothing, any other
      is stored and marks the slot changed. */
  function Assigned<V(==)>(e: Entry<V>, v: V): (r: Entry<V>)
    ensures r.value == v
    ensures r.changed <==> e.changed || e.value != v
    ensures e.value == v ==> r == e
  {
    if e.value != v then Entry(v, true) else e
  }

  /** `Variables.set` on a table: an absent name gets a fresh slot (changed), a
      present one goes through the setter. */
  function Stored<V(==)>(m: map<string, Entry<V>>, key: string, v: V): (r: map<string, Entry<V>>)
    ensures r.Keys == m.Keys + {key}
    ensures r[key].value == v
    ensures key !in m ==> r[key].changed
    ensures key in m ==> r[key] == Assigned(m[key], v)
  {
    m[key := if key in m then Assigned(m[key], v) else Entry(v, true)]
  }

  /** `Variables._reset` on a table: every flag cleared. */
  function Cleared<V>(m: map<string, Entry<V>>): (r: map<string, Entry<V>>)
    ensures r.Keys == m.Keys
    ensures forall k :: k in m ==> r[k] == Entry(m[k].value, false)
  {
    map k | k in m :: Entry(m[k].value, false)
  }

  /** Writing the value a slot already holds leaves the whole table as it was,
      flag included. */
  lemma StoreSameIsNoop<V>(m: map<string, Entry<V>>, key: string)
    requires key in m
    ensures Stored(m, key, m[key].value) == m
  {
  }

  /** Storing twice the same value is storing it once. */
  lemma StoreIdempotent<V>(m: map<string, Entry<V>>, key: string, v: V)
    ensures Stored(Stored(m, key, v), key, v) == Stored(m, key, v)
  {
  }

  /** After a reset, storing a value differs from the reset table exactly when the
      value differs: the flag then records a real change. */
  lemma ChangedAfterResetMeansDifferent<V>(m: map<string, Entry<V>>, key: string, v: V)
    requires key in m
    ensures Stored(Cleared(m), key, v)[key].changed <==> m[key].value != v
  {
  }

  /** A reset keeps every name and value and is idempotent. */
  lemma ClearedKeepsValues<V>(m: map<string, Entry<V>>)
    ensures forall k :: k in m ==> Cleared(m)[k].value == m[k].value
    ensures Cleared(Cleared(m)) == Cleared(m)
  {
  }

  /** `VariableValue`: one slot. The ghost `owner` and `name` record the table and
      the name it was made for, which is how the model knows that no two names
      share a slot. */
  class VariableValue<V(==)> {
    var value: V
    var changed: bool
    ghost const owner: Variables<V>
    ghost const name: string

    function Contents(): (r: Entry<V>)
      reads this
      ensures r.value == value && r.changed == changed
    {
      Entry(value, changed)
    }

    /** A new slot holds its value and counts as changed. */
    constructor (v: V, ghost owner: Variables<V>, ghost name: string)
      ensures value == v && changed
      ensures this.owner == owner && this.name == name
    {
      value := v;
      changed := true;
      this.owner := owner;
      this.name := name;
    }

    /** The `value` setter. */
    method SetValue(v: V)
      modifies this
      ensures Contents() == Assigned(old(Contents()), v)
    {
      if value != v {
        changed := true;
        value := v;
      }
    }

    /** `_reset`: the flag is cleared, the value kept. */
    method Reset()
      modifies this
      ensures value == old(value) && !changed
    {
      changed := false;
    }

    /** `invalidate`: the flag is set, the value kept. */
    method Invalidate()
      modifies this
      ensures value == old(value) && changed
    {
      changed := true;
    }
  }

  /** `Variables`: a table from names to slots. */
  class Variables<V(==)> {
    var slots: map<string, VariableValue<V>>

    /** Every slot was made by this table's `set` for its own name, so no slot is
        shared between two names or two tables. */
    ghost predicate Valid()
      reads this
    {
      forall k :: k in slots ==> slots[k].owner == this && slots[k].name == k
    }

    /** What the table holds, name by name. */
    ghost function Contents(): (r: map<string, Entry<V>>)
      reads this, slots.Values
      ensures r.Keys == slots.Keys
    {
      map k | k in slots :: Entry(slots[k].value, slots[k].changed)
    }

    constructor ()
      ensures Valid() && slots == map[]
    {
      slots := map[];
    }

    /** `_raw_get`: the slot itself, if the name has one. */
    function RawGet(key: string): (r: Option<VariableValue<V>>)
      reads this
      ensures r.Some? <==> key in slots
      ensures r.Some? ==> r.value == slots[key]
    {
      if key in slots then Some(slots[key]) else None
    }

    /** `get` (and `[]`): the value stored under the name, None without one. */
    function Get(key: string): (r: Option<V>)
      reads this, slots.Values
      ensures r.Some? <==> key in Contents()
      ensures r.Some? ==> r.value == Contents()[key].value
    {
      if key in slots then Some(slots[key].value) else None
    }

    /** `__contains__`. */
    predicate Contains(key: string): (b: bool)
      reads this, slots.Values
      ensures b <==> key in Contents()
    {
      key in slots
    }

    /** `set` (and `[]=`): a fresh slot for a new name, the setter otherwise; no other
        name's slot is touched. */
    method Set(key: string, v: V)
      requires Valid()
      modifies this, if key in slots then {slots[key]} else {}
      ensures Valid()
      ensures Contents() == Stored(old(Contents()), key, v)
      ensures key in old(slots) ==> slots == old(slots)
      ensures key !in old(slots) ==> fresh(slots[key]) && slots == old(slots)[key := slots[key]]
      ensures forall s :: s in slots.Values && s !in old(slots.Values) ==> fresh(s)
    {
      if key !in slots {
        var slot := new VariableValue(v, this, key);
        slots := slots[key := slot];
      } else {
        slots[key].SetValue(v);
      }
    }

    /** `_reset`: clear the flag of every slot, one slot at a time. */
    method Reset()
      requires Valid()
      modifies slots.Values
      ensures Valid()
      ensures Contents() == Cleared(old(Contents()))
    {
      var todo := slots.Keys;
      while todo != {}
        invariant todo <= slots.Keys
        invariant forall k :: k in slots ==> slots[k].value == old(slots[k].value)
        invariant forall k :: k in slots && k !in todo ==> !slots[k].changed
        invariant forall k :: k in todo ==> slots[k].changed == old(slots[k].changed)
        decreases todo
      {
        var k :| k in todo;
        slots[k].Reset();
        todo := todo - {k};
      }
    }
  }
}
