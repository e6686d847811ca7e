/** The layout tree of app/core/old/old_abstract_layout.py: each layout has its
    own variable table and a parent link, and a name is looked up in the nearest
    layout up the parent chain that defines it.

    The pure half works on the chain of tables as a sequence of maps, from the
    layout itself (index 0) up to the root. The class half walks the parent links
    and is proved to agree with it; because Dafny functions may not branch on the
    heap without a measure, each walk takes the chain it follows as a ghost
    argument. */
module Layout {
  import opened Wrappers
  import opened Variable

  type Scopes<V> = seq<map<string, Entry<V>>>

  /** The index of the nearest table in the chain that defines `name`. */
  function Defining<V>(scopes: Scopes<V>, name: string): (r: Option<nat>)
    ensures r.Some? ==> r.value < |scopes| && name in scopes[r.value]
    ensures r.Some? ==> forall j :: 0 <= j < r.value ==> name !in scopes[j]
    ensures r.None? ==> forall j :: 0 <= j < |scopes| ==> name !in scopes[j]
  {
    if |scopes| == 0 then None
    else if name in scopes[0] then Some(0)
    else
      match Defining(scopes[1..], name)
      case None => None
      case Some(d) => Some(d + 1)
  }

  /** Past a first table without the name, the nearest definition is one
      further than in the rest of the tables. */
  lemma DefiningTail<V>(scopes: Scopes<V>, name: string)
    requires |scopes| > 0 && name !in scopes[0]
    ensures Defining(scopes, name) ==
      if Defining(scopes[1..], name).None? then None else Some(Defining(scopes[1..], name).value + 1)
  {
  }

  /** The value a lookup of `name` finds: the nearest definition's, or nothing. */
  function Resolve<V>(scopes: Scopes<V>, name: string): (r: Option<V>)
    ensures r.Some? <==> exists j :: 0 <= j < |scopes| && name in scopes[j]
  {
    var d := Defining(scopes, name);
    if d.Some? then Some(scopes[d.value][name].value) else None
  }

  /** A lookup answers from the first table if it defines the name, and otherwise
      asks the rest of the chain. */
  lemma ResolveStep<V>(scopes: Scopes<V>, name: string)
    requires |scopes| > 0
    ensures Resolve(scopes, name) ==
      if name in scopes[0] then Some(scopes[0][name].value) else Resolve(scopes[1..], name)
  {
    if name !in scopes[0] {
      var d := Defining(scopes, name);
      var e := Defining(scopes[1..], name);
      if e.Some? {
        assert d.Some? && d.value == e.value + 1;
      } else {
        assert d.None?;
      }
    }
  }

  /** Two chains that agree on where `name` is defined and on its values there
      resolve `name` alike. */
  lemma ResolveAgrees<V>(s1: Scopes<V>, s2: Scopes<V>, name: string)
    requires |s1| == |s2|
    requires forall i :: 0 <= i < |s1| ==> (name in s1[i] <==> name in s2[i])
    requires forall i :: 0 <= i < |s1| && name in s1[i] ==> s1[i][name].value == s2[i][name].value
    ensures Defining(s1, name) == Defining(s2, name)
    ensures Resolve(s1, name) == Resolve(s2, name)
  {
  }

  /** `override`: the layout's own table gets the name, through the table's `set`. */
  function OverrideScopes<V(==)>(scopes: Scopes<V>, name: string, v: V): (r: Scopes<V>)
    requires |scopes| > 0
    ensures |r| == |scopes| && r[1..] == scopes[1..]
    ensures name in r[0] && r[0][name].value == v
  {
    scopes[0 := Stored(scopes[0], name, v)]
  }

  /** The table `update` writes to: the nearest defining one, or the layout's own. */
  function Target<V>(scopes: Scopes<V>, name: string): (r: nat)
    requires |scopes| > 0
    ensures r < |scopes|
    ensures (exists j :: 0 <= j < |scopes| && name in scopes[j]) ==>
      name in scopes[r] && forall j :: 0 <= j < r ==> name !in scopes[j]
    ensures (forall j :: 0 <= j < |scopes| ==> name !in scopes[j]) ==> r == 0
  {
    var d := Defining(scopes, name);
    if d.Some? then d.value else 0
  }

  /** `update`: the setter of the nearest defining slot, or `override` without one. */
  function UpdateScopes<V(==)>(scopes: Scopes<V>, name: string, v: V): (r: Scopes<V>)
    requires |scopes| > 0
    ensures |r| == |scopes|
    ensures forall i :: 0 <= i < |scopes| && i != Target(scopes, name) ==> r[i] == scopes[i]
    ensures var t := Target(scopes, name); name in r[t] && r[t][name].value == v
  {
    var t := Target(scopes, name);
    scopes[t := Stored(scopes[t], name, v)]
  }

  /** After `override` the layout sees the new value, every other name resolves as
      before, and the parent's chain is untouched, so the parent still sees the
      old value: the new definition shadows. */
  lemma OverrideShadows<V>(scopes: Scopes<V>, name: string, v: V, other: string)
    requires |scopes| > 0 && other != name
    ensures Resolve(OverrideScopes(scopes, name, v), name) == Some(v)
    ensures Resolve(OverrideScopes(scopes, name, v), other) == Resolve(scopes, other)
    ensures OverrideScopes(scopes, name, v)[1..] == scopes[1..]
  {
    var r := OverrideScopes(scopes, name, v);
    ResolveStep(r, name);
    ResolveAgrees(r, scopes, other);
  }

  /** After `update`, the layout and every layout between it and the defining one
      (that one included) see the new value. */
  lemma UpdateSeenBelowTarget<V>(scopes: Scopes<V>, name: string, v: V, k: nat)
    requires |scopes| > 0 && k <= Target(scopes, name)
    ensures Resolve(UpdateScopes(scopes, name, v)[k..], name) == Some(v)
  {
    var t := Target(scopes, name);
    var r := UpdateScopes(scopes, name, v)[k..];
    var d := Defining(r, name);
    assert name in r[t - k];
    assert d.Some?;
  }

  /** Layouts above the written table are untouched by `update`. */
  lemma UpdateAboveTargetUnchanged<V>(scopes: Scopes<V>, name: string, v: V, k: nat)
    requires |scopes| > 0 && Target(scopes, name) < k <= |scopes|
    ensures UpdateScopes(scopes, name, v)[k..] == scopes[k..]
  {
  }

  /** `update` changes no other name, seen from any layout in the chain. */
  lemma UpdateKeepsOtherNames<V>(scopes: Scopes<V>, name: string, v: V, other: string, k: nat)
    requires |scopes| > 0 && other != name && k <= |scopes|
    ensures Resolve(UpdateScopes(scopes, name, v)[k..], other) == Resolve(scopes[k..], other)
  {
    ResolveAgrees(UpdateScopes(scopes, name, v)[k..], scopes[k..], other);
  }

  /** Where an ancestor defines the name, `update` writes there and the ancestor
      sees the new value, unlike `override`, which leaves it alone. */
  lemma UpdateReachesAncestor<V>(scopes: Scopes<V>, name: string, v: V)
    requires |scopes| > 0 && Defining(scopes, name).Some? && Defining(scopes, name).value > 0
    ensures var d := Defining(scopes, name).value;
            Resolve(UpdateScopes(scopes, name, v)[d..], name) == Some(v) &&
            OverrideScopes(scopes, name, v)[d..] == scopes[d..]
  {
    UpdateSeenBelowTarget(scopes, name, v, Defining(scopes, name).value);
  }

  /** Without any definition in the chain, `update` is `override`. */
  lemma UpdateWithoutDefinitionOverrides<V>(scopes: Scopes<V>, name: string, v: V)
    requires |scopes| > 0 && forall j :: 0 <= j < |scopes| ==> name !in scopes[j]
    ensures UpdateScopes(scopes, name, v) == OverrideScopes(scopes, name, v)
  {
    assert Defining(scopes, name).None?;
  }

  // ---------------------------------------------------------------------------
  // The layout objects

  /** The variable tables of the layouts of a chain (fixed at construction). */
  ghost function Tables<V>(chain: seq<AbstractLayout<V>>): set<Variables<V>>
  {
    set l | l in chain :: l.variables
  }

  /** The slots of those tables. */
  ghost function Slots<V>(chain: seq<AbstractLayout<V>>): set<VariableValue<V>>
    reads Tables(chain)
  {
    set t, s | t in Tables(chain) && s in t.slots.Values :: s
  }

  /** The tail of a chain reads no more than the chain does. */
  lemma TailFrame<V>(chain: seq<AbstractLayout<V>>)
    requires |chain| > 0
    ensures Tables(chain[1..]) <= Tables(chain)
    ensures Slots(chain[1..]) <= Slots(chain)
  {
    assert forall l :: l in chain[1..] ==> l in chain;
  }

  /** The tables of a chain as values, nearest first. */
  ghost function ScopesOf<V>(chain: seq<AbstractLayout<V>>): (r: Scopes<V>)
    reads Tables(chain), Slots(chain)
    ensures |r| == |chain|
  {
    if chain == [] then []
    else
      assert forall s :: s in chain[0].variables.slots.Values ==> s in Slots(chain);
      [chain[0].variables.Contents()] + ScopesOf(chain[1..])
  }

  /** The first scope is the first layout's table; the rest are the tail's. */
  lemma ScopesOfHead<V>(chain: seq<AbstractLayout<V>>)
    requires |chain| > 0
    ensures ScopesOf(chain)[0] == chain[0].variables.Contents()
    ensures ScopesOf(chain)[1..] == ScopesOf(chain[1..])
  {
  }

  /** Entry i of the chain's scopes is table i's contents. */
  lemma {:induction false} ScopesOfAt<V>(chain: seq<AbstractLayout<V>>)
    ensures forall i :: 0 <= i < |chain| ==> ScopesOf(chain)[i] == chain[i].variables.Contents()
  {
    if chain != [] {
      ScopesOfAt(chain[1..]);
      assert forall i :: 1 <= i < |chain| ==> chain[i] == chain[1..][i - 1];
    }
  }

  /** No two layouts of the chain share a table, and each table is valid: every
      table is made by its own layout's constructor. */
  ghost predicate Separate<V>(chain: seq<AbstractLayout<V>>)
    reads Tables(chain)
  {
    (forall i :: 0 <= i < |chain| ==> chain[i].variables.Valid()) &&
    forall i, j :: 0 <= i < j < |chain| ==> chain[i].variables != chain[j].variables
  }

  /** A table none of whose slots changed holds what it held. */
  twostate lemma KeepsContents<V>(t: Variables<V>)
    requires unchanged(t) && forall s :: s in t.slots.Values ==> unchanged(s)
    ensures t.Contents() == old(t.Contents())
    ensures old(t.Valid()) ==> t.Valid()
  {
  }

  /** A table whose slot under `name` went through the setter with `v`, and
      nothing else of which changed, went through `set` with `v`. */
  twostate lemma TableWritten<V>(t: Variables<V>, new name: string, new v: V)
    requires unchanged(t) && name in t.slots && t.Valid()
    requires forall x :: x in t.slots.Values && x != t.slots[name] ==> unchanged(x)
    requires t.slots[name].value == v
    requires t.slots[name].changed <==> old(t.slots[name].changed) || old(t.slots[name].value) != v
    ensures t.Contents() == Stored(old(t.Contents()), name, v)
  {
    forall k | k in t.slots && k != name
      ensures unchanged(t.slots[k])
    {
      assert t.slots[k] in t.slots.Values;
    }
  }

  /** `width` / `height`: a fixed size, or whatever a lookup finds. */
  datatype Dimension<V> = Fixed(size: int) | Looked(found: Option<V>)

  /** The object a listener reports to; its triggers are not modelled. */
  class Listener<V(==)> {
    var widget: AbstractLayout?<V>

    constructor ()
      ensures widget == null
    {
      widget := null;
    }
  }

  /** The constructor's loop over `variables`: a fresh table, one `set` per entry. */
  method NewTable<V(==)>(vars: map<string, V>) returns (table: Variables<V>)
    ensures fresh(table) && table.Valid()
    ensures forall s :: s in table.slots.Values ==> fresh(s)
    ensures table.Contents() == map k | k in vars :: Entry(vars[k], true)
  {
    table := new Variables<V>();
    var todo := vars.Keys;
    while todo != {}
      invariant todo <= vars.Keys && fresh(table) && table.Valid()
      invariant forall s :: s in table.slots.Values ==> fresh(s)
      invariant table.Contents() == map k | k in vars && k !in todo :: Entry(vars[k], true)
      decreases todo
    {
      var k :| k in todo;
      table.Set(k, vars[k]);
      todo := todo - {k};
    }
  }

  /** After `set` wrote `v` under `name` in table `d` of the chain, and nothing
      else of the chain changed, the chain's scopes differ only in that entry. */
  twostate lemma ChainWritten<V>(chain: seq<AbstractLayout<V>>, new d: nat, new name: string, new v: V, new before: Scopes<V>)
    requires old(Separate(chain)) && d < |chain|
    requires before == old(ScopesOf(chain))
    requires forall i :: 0 <= i < |chain| ==> before[i] == old(chain[i].variables.Contents())
    requires forall i :: 0 <= i < |chain| ==> unchanged(chain[i].variables)
    requires forall i, x :: 0 <= i < |chain| && i != d && x in chain[i].variables.slots.Values ==> unchanged(x)
    requires chain[d].variables.Valid()
    requires chain[d].variables.Contents() == Stored(before[d], name, v)
    ensures Separate(chain)
    ensures ScopesOf(chain) == before[d := Stored(before[d], name, v)]
  {
    forall i | 0 <= i < |chain| && i != d
      ensures chain[i].variables.Contents() == before[i] && chain[i].variables.Valid()
    {
      KeepsContents(chain[i].variables);
    }
    ScopesOfAt(chain);
    assert forall i :: 0 <= i < |chain| ==> ScopesOf(chain)[i] == before[d := Stored(before[d], name, v)][i];
  }

  /** A child adopted by `add_children` extends its parent's chain, and a name it
      does not define itself is looked up in the parent. */
  lemma ChildSeesParent<V>(c: AbstractLayout<V>, chain: seq<AbstractLayout<V>>, name: string)
    requires |chain| > 0 && chain[0].ChainOf(chain) && c.parent == chain[0]
    ensures c.ChainOf([c] + chain)
    ensures name !in c.variables.slots ==> c.Lookup(name, [c] + chain) == chain[0].Lookup(name, chain)
  {
    assert ([c] + chain)[1..] == chain;
  }

  /** The setter call of `update` on the slot that table `d` of the chain holds
      under the slot's name. */
  method AssignSlot<V(==)>(s: VariableValue<V>, v: V, ghost chain: seq<AbstractLayout<V>>, ghost d: nat)
    requires Separate(chain) && d < |chain|
    requires s.name in chain[d].variables.slots && chain[d].variables.slots[s.name] == s
    modifies s
    ensures Separate(chain)
    ensures ScopesOf(chain) == old(ScopesOf(chain))[d := Stored(old(ScopesOf(chain))[d], s.name, v)]
  {
    ghost var before := ScopesOf(chain);
    ScopesOfAt(chain);
    ghost var t, name := chain[d].variables, s.name;
    s.SetValue(v);
    TableWritten(t, name, v);
    ChainWritten(chain, d, name, v, before);
  }

  class AbstractLayout<V(==)> {
    var parent: AbstractLayout?<V>
    const id: Option<string>
    var children: seq<AbstractLayout<V>>
    const variables: Variables<V>
    const dependsOn: seq<string>
    const listener: Listener?<V>
    const width: Option<int>
    const height: Option<int>

    /** `chain` is this layout followed by its ancestors, ending at the root. */
    ghost predicate ChainOf(chain: seq<AbstractLayout<V>>)
      reads chain
    {
      |chain| > 0 && chain[0] == this && chain[|chain| - 1].parent == null &&
      forall i :: 0 <= i < |chain| - 1 ==> chain[i].parent == chain[i + 1]
    }

    /** The constructor: a root layout with a fresh table holding one fresh,
        changed slot per given variable; it registers itself with the listener and
        adopts the children. */
    constructor (id: Option<string>, vars: map<string, V>, dependsOn: seq<string>, listener: Listener?<V>,
                 width: Option<int>, height: Option<int>, children: seq<AbstractLayout<V>>)
      modifies listener, set c | c in children
      ensures this.id == id && this.dependsOn == dependsOn && this.listener == listener
      ensures this.width == width && this.height == height
      ensures fresh(variables) && variables.Valid()
      ensures variables.Contents() == map k | k in vars :: Entry(vars[k], true)
      ensures listener != null ==> listener.widget == this
      ensures this.children == children && forall c :: c in children ==> c.parent == this
      ensures forall c :: c in children ==> c.children == old(c.children)
      ensures this !in children ==> parent == null
    {
      var table := NewTable(vars);
      this.parent := null;
      this.id := id;
      this.children := [];
      this.variables := table;
      this.dependsOn := dependsOn;
      this.listener := listener;
      this.width := width;
      this.height := height;
      new;
      label built:
      if listener != null {
        listener.widget := this;
      }
      AddChildren(children);
      KeepsContents@built(table);
    }

    /** `fixed_width` / `fixed_height`. */
    predicate FixedWidth()
    {
      width.Some?
    }

    predicate FixedHeight()
    {
      height.Some?
    }

    /** `lookup`: the value of the nearest definition up the chain, None at the root. */
    function Lookup(name: string, ghost chain: seq<AbstractLayout<V>>): (r: Option<V>)
      requires ChainOf(chain)
      reads chain, Tables(chain), Slots(chain)
      ensures r == Resolve(ScopesOf(chain), name)
      decreases |chain|
    {
      ResolveStep(ScopesOf(chain), name);
      if name in variables.slots then
        assert chain[0] == this && variables in Tables(chain) && variables.slots[name] in variables.slots.Values;
        Some(variables.slots[name].value)
      else if parent != null then
        TailFrame(chain);
        assert parent.ChainOf(chain[1..]) && ScopesOf(chain)[1..] == ScopesOf(chain[1..]);
        parent.Lookup(name, chain[1..])
      else
        None
    }

    /** `_raw_lookup`: the slot of the nearest definition itself. */
    function RawLookup(name: string, ghost chain: seq<AbstractLayout<V>>): (r: Option<VariableValue<V>>)
      requires ChainOf(chain)
      reads chain, Tables(chain), Slots(chain)
      ensures r.Some? <==> Defining(ScopesOf(chain), name).Some?
      ensures r.Some? ==> var d := Defining(ScopesOf(chain), name).value;
        name in chain[d].variables.slots && r.value == chain[d].variables.slots[name]
      decreases |chain|
    {
      var scopes := ScopesOf(chain);
      ScopesOfHead(chain);
      if name in variables.slots then
        assert chain[0] == this && variables in Tables(chain);
        variables.RawGet(name)
      else if parent != null then
        TailFrame(chain);
        DefiningTail(scopes, name);
        assert parent.ChainOf(chain[1..]);
        assert forall d :: 0 <= d < |chain| - 1 ==> chain[1..][d] == chain[d + 1];
        parent.RawLookup(name, chain[1..])
      else
        assert |chain| == 1;
        None
    }

    /** `width`: the fixed width if there is one, else a lookup of "width". */
    function Width(ghost chain: seq<AbstractLayout<V>>): (r: Dimension<V>)
      requires ChainOf(chain)
      reads chain, Tables(chain), Slots(chain)
      ensures r.Fixed? <==> FixedWidth()
      ensures r.Fixed? ==> r.size == width.value
      ensures r.Looked? ==> r.found == Resolve(ScopesOf(chain), "width")
    {
      if width.Some? then Fixed(width.value) else Looked(Lookup("width", chain))
    }

    /** `height`: the fixed height if there is one, else a lookup of "height". */
    function Height(ghost chain: seq<AbstractLayout<V>>): (r: Dimension<V>)
      requires ChainOf(chain)
      reads chain, Tables(chain), Slots(chain)
      ensures r.Fixed? <==> FixedHeight()
      ensures r.Fixed? ==> r.size == height.value
      ensures r.Looked? ==> r.found == Resolve(ScopesOf(chain), "height")
    {
      if height.Some? then Fixed(height.value) else Looked(Lookup("height", chain))
    }

    /** `add_children`: each child's parent becomes this layout and the children
        are appended in order. */
    method AddChildren(cs: seq<AbstractLayout<V>>)
      modifies this, set c | c in cs
      ensures children == old(children) + cs
      ensures forall c :: c in cs ==> c.parent == this
      ensures forall c :: c in cs && c != this ==> c.children == old(c.children)
      ensures this !in cs ==> parent == old(parent)
    {
      var i := 0;
      while i < |cs|
        invariant 0 <= i <= |cs|
        invariant children == old(children) + cs[..i]
        invariant forall j :: 0 <= j < i ==> cs[j].parent == this
        invariant forall c :: c in cs && c != this ==> c.children == old(c.children)
        invariant this !in cs ==> parent == old(parent)
      {
        cs[i].parent := this;
        children := children + [cs[i]];
        i := i + 1;
      }
    }

    /** `override`: write the layout's own table only. */
    method Override(name: string, v: V, ghost chain: seq<AbstractLayout<V>>)
      requires ChainOf(chain) && Separate(chain)
      modifies variables, if name in variables.slots then {variables.slots[name]} else {}
      ensures Separate(chain)
      ensures ScopesOf(chain) == OverrideScopes(old(ScopesOf(chain)), name, v)
    {
      ghost var before := ScopesOf(chain);
      ScopesOfAt(chain);
      variables.Set(name, v);
      forall i | 1 <= i < |chain|
        ensures chain[i].variables.Contents() == before[i] && chain[i].variables.Valid()
      {
        var t := chain[i].variables;
        assert t != variables;
        assert forall s :: s in t.slots.Values ==> s.owner == t;
        KeepsContents(t);
      }
      ghost var after := ScopesOf(chain);
      ScopesOfAt(chain);
      assert after[0] == Stored(before[0], name, v);
      assert forall i :: 1 <= i < |chain| ==> after[i] == before[i];
      assert after == before[0 := Stored(before[0], name, v)];
    }

    /** `update`: the setter of the nearest defining slot, possibly an ancestor's;
        `override` when no layout of the chain defines the name. */
    method Update(name: string, v: V, ghost chain: seq<AbstractLayout<V>>)
      requires ChainOf(chain) && Separate(chain)
      modifies variables, if RawLookup(name, chain).Some? then {RawLookup(name, chain).value} else {}
      ensures Separate(chain)
      ensures ScopesOf(chain) == UpdateScopes(old(ScopesOf(chain)), name, v)
    {
      ghost var before := ScopesOf(chain);
      ScopesOfAt(chain);
      var slot := RawLookup(name, chain);
      if slot.Some? {
        ghost var d := Defining(before, name).value;
        AssignSlot(slot.value, v, chain, d);
      } else {
        assert chain[0] == this && variables in Tables(chain);
        Override(name, v, chain);
      }
    }
  }
}
