// Components and their grouping. A Group is a container whose members are
// drawn on top of each other, earlier members below later ones; `above` and
// `below` merge two components into a Group.

module Components {
  import opened Utils

  /**
   * A component; when `isGroup` it is a Group, a container holding the
   * components in `components`. `parent` is the container it was added to.
   */
  class Component {
    const isGroup: bool
    var parent: Component?
    var components: seq<Component>

    /** A plain component, not in any container. */
    constructor ()
      ensures !isGroup && parent == null && components == []
      ensures Linked()
    {
      isGroup := false;
      parent := null;
      components := [];
    }

    /** `new Components.Group()`: an empty Group. */
    constructor Group()
      ensures isGroup && parent == null && components == []
      ensures Linked()
    {
      isGroup := true;
      parent := null;
      components := [];
    }

    /**
     * Only a container has members; each is held once, is not the container
     * itself, and knows this as its parent.
     */
    ghost predicate Linked()
      reads this, components
    {
      && (!isGroup ==> components == [])
      && Distinct(components)
      && this !in components
      && forall i :: 0 <= i < |components| ==> components[i].parent == this
    }

    /** `empty()`: true iff the container holds no component. */
    function Empty(): (r: bool)
      reads this
      ensures r <==> |components| == 0
    {
      |components| == 0
    }

    /**
     * `add(c, prepend)`: refuses a missing component, one already held and
     * the container itself; otherwise puts it first or last and makes this
     * its parent. A component that is added must not sit in another container.
     */
    method Add(c: Component?, prepend: bool) returns (added: bool)
      requires isGroup && Linked()
      requires c != null && c != this && c !in components ==> c.parent == null
      modifies this, c
      ensures added <==> c != null && c != this && c !in old(components)
      ensures added ==> components == (if prepend then [c] + old(components) else old(components) + [c])
      ensures added ==> c.parent == this
      ensures !added ==> components == old(components) && (c != null ==> c.parent == old(c.parent))
      ensures c != this ==> parent == old(parent)
      ensures c != null && c != this ==> c.components == old(c.components)
      ensures Linked()
    {
      if c == null || c == this || c in components {
        return false;
      }
      if prepend {
        components := [c] + components;
      } else {
        components := components + [c];
      }
      c.parent := this;
      added := true;
    }

    /**
     * `remove(c)`: takes the component out, keeping the order of the rest; a
     * component taken out no longer has this as its parent.
     */
    method Remove(c: Component)
      requires Linked()
      modifies this, c
      ensures components == RemoveFirst(old(components), c)
      ensures c !in components
      ensures c in old(components) ==> c.parent == null
      ensures c !in old(components) ==> c.parent == old(c.parent)
      ensures c != this ==> c.components == old(c.components)
      ensures parent == old(parent)
      ensures Linked()
    {
      var held := c in components;
      var rest := RemoveFirst(components, c);
      RemoveFirstDistinct(components, c);
      forall k | 0 <= k < |rest| ensures rest[k].parent == this {
        RemoveFirstIndex(components, c, k);
      }
      components := rest;
      if held {
        c.parent := null;
      }
    }

    /** `detach()`: leaves the parent container, if any. */
    method Detach()
      requires parent != null ==> parent.Linked()
      modifies this, parent
      ensures parent == null
      ensures old(parent) != null ==> old(parent).components == RemoveFirst(old(parent.components), this)
      ensures old(parent) != this ==> components == old(components)
      ensures old(parent) != null ==> old(parent).Linked()
      ensures old(parent) != null && old(parent) != this ==> old(parent).parent == old(parent.parent)
    {
      var p := parent;
      if p != null {
        p.Remove(this);
        assert this !in p.components;
      }
      parent := null;
    }

    /** `detachAll()`: detaches every member, leaving the container empty. */
    method DetachAll()
      requires Linked()
      modifies this, components
      ensures components == [] && Empty()
      ensures parent == old(parent)
      ensures forall i :: 0 <= i < |old(components)| ==> old(components)[i].parent == null
      ensures forall i :: 0 <= i < |old(components)| ==> old(components)[i].components == old(components[i].components)
    {
      var members := components;
      var i := 0;
      while i < |members|
        invariant 0 <= i <= |members|
        invariant components == members[i..]
        invariant Linked()
        invariant forall j :: 0 <= j < i ==> members[j].parent == null
        invariant forall j :: 0 <= j < |members| ==> members[j].components == old(members[j].components)
        invariant Distinct(members) && this !in members
        invariant parent == old(parent)
      {
        var c := members[i];
        assert c == components[0];
        assert IndexOf(components, c) == 0;
        c.Detach();
        assert components == members[i + 1..];
        i := i + 1;
      }
    }

    /**
     * `_merge(c, below)`: layers this and c into a Group, this first when
     * `below`, c first otherwise.
     */
    method Merge(c: Component, below: bool) returns (g: Component)
      requires Linked() && c.Linked()
      requires isGroup && !c.isGroup && c !in components ==> c.parent == null
      requires !isGroup && c.isGroup && this !in c.components ==> parent == null
      requires isGroup == c.isGroup ==> parent == null && c.parent == null
      modifies this, c
      ensures g.isGroup && g.Linked()
      ensures g != this ==> components == old(components)
      ensures g != c ==> c.components == old(c.components)
      ensures g == this ==> parent == old(parent)
      ensures g == c ==> c.parent == old(c.parent)
      ensures !isGroup && !c.isGroup ==> fresh(g) && g.components == OrderedPair(this, c, below)
      ensures isGroup && !c.isGroup ==> (g == this && g.components ==
        (if c in old(components) then old(components)
         else if below then old(components) + [c] else [c] + old(components)))
      ensures !isGroup && c.isGroup ==> (g == c && g.components ==
        (if this in old(c.components) then old(c.components)
         else if below then [this] + old(c.components) else old(c.components) + [this]))
      ensures isGroup && c.isGroup ==> fresh(g) && g.components == OrderedPair(this, c, below)
    {
      if isGroup && !c.isGroup {
        var _ := Add(c, !below);
        g := this;
      } else if !isGroup && c.isGroup {
        var _ := c.Add(this, below);
        g := c;
      } else {
        g := new Component.Group();
        var first, second := if below then this else c, if below then c else this;
        var _ := g.Add(first, false);
        var _ := g.Add(second, false);
      }
    }

    /** `above(c)`: this drawn on top of c. */
    method Above(c: Component) returns (g: Component)
      requires Linked() && c.Linked()
      requires isGroup && !c.isGroup && c !in components ==> c.parent == null
      requires !isGroup && c.isGroup && this !in c.components ==> parent == null
      requires isGroup == c.isGroup ==> parent == null && c.parent == null
      modifies this, c
      ensures g.isGroup && g.Linked()
      ensures g != this ==> components == old(components)
      ensures g != c ==> c.components == old(c.components)
      ensures g == this ==> parent == old(parent)
      ensures g == c ==> c.parent == old(c.parent)
      ensures !isGroup && !c.isGroup ==> fresh(g) && g.components == OrderedPair(this, c, false)
      ensures isGroup && !c.isGroup ==> (g == this && g.components ==
        (if c in old(components) then old(components) else [c] + old(components)))
      ensures !isGroup && c.isGroup ==> (g == c && g.components ==
        (if this in old(c.components) then old(c.components) else old(c.components) + [this]))
      ensures isGroup && c.isGroup ==> fresh(g) && g.components == OrderedPair(this, c, false)
    {
      g := Merge(c, false);
    }

    /** `below(c)`: this drawn underneath c. */
    method Below(c: Component) returns (g: Component)
      requires Linked() && c.Linked()
      requires isGroup && !c.isGroup && c !in components ==> c.parent == null
      requires !isGroup && c.isGroup && this !in c.components ==> parent == null
      requires isGroup == c.isGroup ==> parent == null && c.parent == null
      modifies this, c
      ensures g.isGroup && g.Linked()
      ensures g != this ==> components == old(components)
      ensures g != c ==> c.components == old(c.components)
      ensures g == this ==> parent == old(parent)
      ensures g == c ==> c.parent == old(c.parent)
      ensures !isGroup && !c.isGroup ==> fresh(g) && g.components == OrderedPair(this, c, true)
      ensures isGroup && !c.isGroup ==> (g == this && g.components ==
        (if c in old(components) then old(components) else old(components) + [c]))
      ensures !isGroup && c.isGroup ==> (g == c && g.components ==
        (if this in old(c.components) then old(c.components) else [this] + old(c.components)))
      ensures isGroup && c.isGroup ==> fresh(g) && g.components == OrderedPair(this, c, true)
    {
      g := Merge(c, true);
    }
  }

  /**
   * The members of a new Group made from a and b: a before b when `below`,
   * b before a otherwise; a component merged with itself appears once.
   */
  function OrderedPair(a: Component, b: Component, below: bool): (r: seq<Component>)
    ensures a == b ==> r == [a]
    ensures a != b && below ==> r == [a, b]
    ensures a != b && !below ==> r == [b, a]
  {
    if a == b then [a] else if below then [a, b] else [b, a]
  }

  /** Above and below are mirror images: a above b is b below a. */
  lemma AboveIsMirroredBelow(a: Component, b: Component)
    ensures OrderedPair(a, b, false) == OrderedPair(b, a, true)
    ensures a != b ==> OrderedPair(a, b, false)[0] == b && OrderedPair(a, b, true)[0] == a
  {
  }
}
