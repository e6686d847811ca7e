/** The element tree of the framework (framework/core/element.py): an element
    holds its widget, its parent, its children and the render object built for
    it. Widgets and render objects are abstract in the framework; here a widget
    is any value of type `W`, the answer of `can_update` is a parameter, and a
    render object records the widgets its `update` hook was handed. */
module ElementTree {

  /** Python's `list.remove` on a list known to hold `x`, and the list itself
      otherwise: the first occurrence of `x` is dropped. */
  function RemoveFirst<T(==)>(s: seq<T>, x: T): (r: seq<T>)
    ensures x !in s ==> r == s
    ensures |r| == if x in s then |s| - 1 else |s|
  {
    if s == [] then []
    else if s[0] == x then s[1..]
    else [s[0]] + RemoveFirst(s[1..], x)
  }

  /** The position of the first occurrence of `x` in `s`. */
  function FirstIndex<T(==)>(s: seq<T>, x: T): (i: nat)
    requires x in s
    ensures i < |s| && s[i] == x && x !in s[..i]
  {
    if s[0] == x then 0 else 1 + FirstIndex(s[1..], x)
  }

  /** Removing cuts out the first occurrence and keeps everything around it. */
  lemma {:induction false} RemoveFirstAt<T>(s: seq<T>, x: T)
    requires x in s
    ensures RemoveFirst(s, x) == s[..FirstIndex(s, x)] + s[FirstIndex(s, x) + 1..]
  {
    if s[0] != x {
      var t := s[1..];
      assert x in t;
      RemoveFirstAt(t, x);
      var i := FirstIndex(t, x);
      assert FirstIndex(s, x) == i + 1;
      assert s[..i + 1] == [s[0]] + t[..i];
      assert s[i + 2..] == t[i + 1..];
    }
  }

  /** Removing drops exactly one copy of `x`, and only when there is one. */
  lemma {:induction false} RemoveFirstMultiset<T>(s: seq<T>, x: T)
    ensures multiset(RemoveFirst(s, x)) == multiset(s) - multiset{x}
  {
    if s != [] {
      assert s == [s[0]] + s[1..];
      assert multiset(s) == multiset{s[0]} + multiset(s[1..]);
      if s[0] != x {
        RemoveFirstMultiset(s[1..], x);
        assert multiset(RemoveFirst(s, x)) == multiset{s[0]} + multiset(RemoveFirst(s[1..], x));
      }
    }
  }

  /** Removing what was just appended, and was not there before, gives the list
      back. */
  lemma RemoveAppended<T>(s: seq<T>, x: T)
    requires x !in s
    ensures RemoveFirst(s + [x], x) == s
  {
    RemoveFirstAt(s + [x], x);
    assert FirstIndex(s + [x], x) == |s|;
    assert (s + [x])[..|s|] == s;
  }

  /** The other elements keep their relative order. */
  lemma RemoveKeepsOrder<T>(s: seq<T>, x: T, i: int, j: int)
    requires x in s && 0 <= i < j < |s| && s[i] != x && s[j] != x
    ensures var r := RemoveFirst(s, x);
      var k := FirstIndex(s, x);
      (if i < k then i else i - 1) < (if j < k then j else j - 1) < |r| &&
      r[if i < k then i else i - 1] == s[i] && r[if j < k then j else j - 1] == s[j]
  {
    RemoveFirstAt(s, x);
  }

  /** `RenderObject`: the back-link to its element; `updates` stands for the
      abstract `update` hook and lists the widgets it was handed. */
  class RenderObject<W> {
    var element: Element?<W>
    var updates: seq<W>

    /** `create_render_object`: a render object not yet linked to an element. */
    constructor ()
      ensures element == null && updates == []
    {
      element := null;
      updates := [];
    }

    /** The abstract `update` hook. */
    method Update(w: W)
      modifies this
      ensures updates == old(updates) + [w] && element == old(element)
    {
      updates := updates + [w];
    }
  }

  class Element<W> {
    var widget: W
    var children: seq<Element<W>>
    var parent: Element?<W>
    var renderObject: RenderObject?<W>

    /** A new element: the widget, no parent, no children, no render object. */
    constructor (w: W)
      ensures widget == w && children == [] && parent == null && renderObject == null
    {
      widget := w;
      children := [];
      parent := null;
      renderObject := null;
    }

    /** `mount`: adopt `p` as parent, join the end of its children, and get a
        fresh render object linked back to this element. A render object held
        before is left as it was. */
    method Mount(p: Element?<W>)
      modifies this, if p != null then {p} else {}
      ensures parent == p && widget == old(widget)
      ensures p != null ==> p.children == old(p.children) + [this]
      ensures p != this ==> children == old(children)
      ensures p != null && p != this ==>
        p.parent == old(p.parent) && p.widget == old(p.widget) && p.renderObject == old(p.renderObject)
      ensures renderObject != null && fresh(renderObject)
      ensures renderObject.element == this && renderObject.updates == []
    {
      parent := p;
      if p != null {
        p.children := p.children + [this];
      }
      var ro := new RenderObject();
      renderObject := ro;
      ro.element := this;
    }

    /** `unmount`: leave the parent's children (the first occurrence only), lose
        the parent, and unlink and drop the render object. The element's own
        children stay. */
    method Unmount()
      modifies this, if parent != null then {parent} else {}
      modifies if renderObject != null then {renderObject} else {}
      ensures parent == null && renderObject == null && widget == old(widget)
      ensures old(parent) != null ==> old(parent).children == RemoveFirst(old(parent.children), this)
      ensures old(parent) != this ==> children == old(children)
      ensures old(parent) != null && old(parent) != this ==>
        old(parent).parent == old(parent.parent) && old(parent).widget == old(parent.widget) &&
        old(parent).renderObject == old(parent.renderObject)
      ensures old(renderObject) != null ==>
        old(renderObject).element == null && old(renderObject).updates == old(renderObject.updates)
      ensures old(parent) == null && old(renderObject) == null ==> unchanged(this)
    {
      if parent != null && this in parent.children {
        parent.children := RemoveFirst(parent.children, this);
      }
      parent := null;
      if renderObject != null {
        renderObject.element := null;
        renderObject := null;
      }
    }

    /** `update`: a compatible widget (`canUpdate`, the answer of the old
        widget's `can_update`) replaces this element's widget and goes to its
        render object's hook; otherwise this element is unmounted and a fresh
        one for `w` is mounted under this element's parent, which the unmount
        has just cleared, so the replacement has no parent. */
    method Update(w: W, canUpdate: bool) returns (e: Element<W>)
      modifies this, if parent != null then {parent} else {}
      modifies if renderObject != null then {renderObject} else {}
      ensures canUpdate ==> e == this && widget == w
      ensures canUpdate ==> parent == old(parent) && children == old(children)
      ensures canUpdate ==> renderObject == old(renderObject)
      ensures canUpdate && renderObject != null ==>
        renderObject.updates == old(renderObject.updates) + [w] && renderObject.element == old(renderObject.element)
      ensures canUpdate && old(parent) != null && old(parent) != this ==> unchanged(old(parent))
      ensures !canUpdate ==> fresh(e) && e.widget == w && e.parent == null && e.children == []
      ensures !canUpdate ==> e.renderObject != null && fresh(e.renderObject) && e.renderObject.element == e
      ensures !canUpdate ==> parent == null && renderObject == null && widget == old(widget)
      ensures !canUpdate && old(parent) != null ==>
        old(parent).children == RemoveFirst(old(parent.children), this)
      ensures !canUpdate && old(parent) != null && old(parent) != this ==>
        old(parent).parent == old(parent.parent) && old(parent).widget == old(parent.widget) &&
        old(parent).renderObject == old(parent.renderObject)
      ensures !canUpdate && old(renderObject) != null ==> old(renderObject).element == null
      ensures !canUpdate && old(parent) != this ==> children == old(children)
      ensures !canUpdate && old(renderObject) != null ==> old(renderObject).updates == old(renderObject.updates)
    {
      if !canUpdate {
        Unmount();
        e := new Element(w);
        e.Mount(parent);
        return;
      }
      widget := w;
      if renderObject != null {
        renderObject.Update(w);
      }
      e := this;
    }
  }
}
