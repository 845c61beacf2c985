/**
 * The dock manager (zww_dock_manager_v2): clients turn surfaces into docks
 * along one edge of an output.  Docks on the same edge stack outward-in, and
 * each output's workarea is its rectangle minus the thickness of its docks.
 */
module DockManager {
  import opened Host

  /** The role a dock surface takes. */
  const DockRole := "ww_dock"

  datatype Position = Default | Top | Bottom | Left | Right

  /** A position a dock actually has: a request's DEFAULT becomes BOTTOM. */
  type Edge = p: Position | p != Default witness Top

  /** A dock as the geometry sees it: its edge and its surface's current size. */
  datatype Extent = Extent(edge: Edge, width: int, height: int)

  /** Messages the dock manager sends. */
  datatype DockEvent =
    /** zww_dock_v2.configure; the handler always passes 1 for the first two arguments. */
    | Configure(to: ResourceId, arg1: int, arg2: int, width: int, height: int, position: Edge)
    | RoleRejected(to: ResourceId)

  /** How much of the output a dock takes away, measured across its edge. */
  function Thickness(e: Extent): int {
    if e.edge == Top || e.edge == Bottom then e.height else e.width
  }

  /**
   * The workarea once one more dock is taken off it: a top or left dock
   * moves that edge inward and keeps the opposite one; a bottom or right
   * dock keeps the origin and moves the far edge inward.
   */
  function ShrinkBy(a: Rect, e: Extent): (r: Rect)
    ensures e.edge == Top ==> r.x == a.x && r.width == a.width && r.y == a.y + e.height && r.y + r.height == a.y + a.height
    ensures e.edge == Bottom ==> r.x == a.x && r.width == a.width && r.y == a.y && r.y + r.height == a.y + a.height - e.height
    ensures e.edge == Left ==> r.y == a.y && r.height == a.height && r.x == a.x + e.width && r.x + r.width == a.x + a.width
    ensures e.edge == Right ==> r.y == a.y && r.height == a.height && r.x == a.x && r.x + r.width == a.x + a.width - e.width
  {
    var a1 := if e.edge == Top then a.(y := a.y + e.height) else a;
    var a2 := if e.edge == Top || e.edge == Bottom then a1.(height := a1.height - e.height) else a1;
    var a3 := if e.edge == Left then a2.(x := a2.x + e.width) else a2;
    if e.edge == Left || e.edge == Right then a3.(width := a3.width - e.width) else a3
  }

  /** The workarea of an output rectangle after taking off the docks `es`, in list order. */
  function Workarea(area: Rect, es: seq<Extent>): Rect
    decreases |es|
  {
    if es == [] then area else ShrinkBy(Workarea(area, es[..|es| - 1]), es[|es| - 1])
  }

  lemma WorkareaSnoc(area: Rect, es: seq<Extent>, e: Extent)
    ensures Workarea(area, es + [e]) == ShrinkBy(Workarea(area, es), e)
  {
    assert (es + [e])[..|es|] == es;
  }

  /** The summed thickness of the docks on one edge. */
  function EdgeTotal(es: seq<Extent>, edge: Edge): int
    decreases |es|
  {
    if es == [] then 0
    else EdgeTotal(es[..|es| - 1], edge) + (if es[|es| - 1].edge == edge then Thickness(es[|es| - 1]) else 0)
  }

  /** Each edge of the workarea lies inward of the output's edge by the summed thickness of that edge's docks. */
  lemma {:induction false} WorkareaClosedForm(area: Rect, es: seq<Extent>)
    ensures Workarea(area, es) == Rect(area.x + EdgeTotal(es, Left), area.y + EdgeTotal(es, Top),
                                       area.width - EdgeTotal(es, Left) - EdgeTotal(es, Right),
                                       area.height - EdgeTotal(es, Top) - EdgeTotal(es, Bottom))
    decreases |es|
  {
    if es != [] {
      WorkareaClosedForm(area, es[..|es| - 1]);
    }
  }

  lemma {:induction false} EdgeTotalAppend(a: seq<Extent>, b: seq<Extent>, edge: Edge)
    ensures EdgeTotal(a + b, edge) == EdgeTotal(a, edge) + EdgeTotal(b, edge)
    decreases |b|
  {
    if b != [] {
      assert (a + b)[..|a + b| - 1] == a + b[..|b| - 1];
      EdgeTotalAppend(a, b[..|b| - 1], edge);
    } else {
      assert a + b == a;
    }
  }

  /** The summed thickness on an edge does not depend on the order of the docks. */
  lemma {:induction false} EdgeTotalPermutation(a: seq<Extent>, b: seq<Extent>, edge: Edge)
    requires multiset(a) == multiset(b)
    ensures EdgeTotal(a, edge) == EdgeTotal(b, edge)
    decreases |b|
  {
    if b != [] {
      var last := b[|b| - 1];
      assert b == b[..|b| - 1] + [last];
      assert last in multiset(a);
      var i :| 0 <= i < |a| && a[i] == last;
      assert a == a[..i] + [last] + a[i + 1..];
      var rest := a[..i] + a[i + 1..];
      assert multiset(rest) == multiset(a) - multiset{last};
      assert multiset(b[..|b| - 1]) == multiset(b) - multiset{last};
      EdgeTotalPermutation(rest, b[..|b| - 1], edge);
      EdgeTotalAppend(a[..i] + [last], a[i + 1..], edge);
      EdgeTotalAppend(a[..i], [last], edge);
      EdgeTotalAppend(a[..i], a[i + 1..], edge);
      EdgeTotalAppend(b[..|b| - 1], [last], edge);
      assert EdgeTotal([last], edge) == (if last.edge == edge then Thickness(last) else 0) by {
        assert [last][..0] == [];
      }
    } else {
      assert |a| == 0;
    }
  }

  /** The workarea does not depend on the order in which the docks were created. */
  lemma WorkareaPermutation(area: Rect, a: seq<Extent>, b: seq<Extent>)
    requires multiset(a) == multiset(b)
    ensures Workarea(area, a) == Workarea(area, b)
  {
    WorkareaClosedForm(area, a);
    WorkareaClosedForm(area, b);
    EdgeTotalPermutation(a, b, Top);
    EdgeTotalPermutation(a, b, Bottom);
    EdgeTotalPermutation(a, b, Left);
    EdgeTotalPermutation(a, b, Right);
  }

  /** Where a dock starts before stacking: the output's corner on its edge (bottom and right docks flush with the far edge). */
  function InitialPlacement(out: Rect, me: Extent): Point {
    var x := if me.edge == Right then out.x + out.width - me.width else out.x;
    var y := if me.edge == Bottom then out.y + out.height - me.height else out.y;
    Point(x, y)
  }

  /** One step of stacking: a dock on the same edge pushes the position inward by its thickness. */
  function StackStep(p: Point, edge: Edge, e: Extent): Point {
    if e.edge != edge then p
    else match edge
      case Top => p.(y := p.y + e.height)
      case Bottom => p.(y := p.y - e.height)
      case Left => p.(x := p.x + e.width)
      case Right => p.(x := p.x - e.width)
  }

  /** The position after stacking past the docks `others`, in list order. */
  function Stacked(p: Point, edge: Edge, others: seq<Extent>): Point
    decreases |others|
  {
    if others == [] then p else StackStep(Stacked(p, edge, others[..|others| - 1]), edge, others[|others| - 1])
  }

  /** Stacking moves a dock inward by exactly the summed thickness of the other docks on its edge. */
  lemma {:induction false} StackedClosedForm(p: Point, edge: Edge, others: seq<Extent>)
    ensures Stacked(p, edge, others) == match edge
      case Top => Point(p.x, p.y + EdgeTotal(others, Top))
      case Bottom => Point(p.x, p.y - EdgeTotal(others, Bottom))
      case Left => Point(p.x + EdgeTotal(others, Left), p.y)
      case Right => Point(p.x - EdgeTotal(others, Right), p.y)
    decreases |others|
  {
    if others != [] {
      StackedClosedForm(p, edge, others[..|others| - 1]);
    }
  }

  /**
   * A dock stacked past the other docks of its output lies flush against the
   * workarea those docks leave, and taking it off as well shrinks that
   * workarea by exactly the band the dock covers.
   */
  lemma PlacementAbutsWorkarea(out: Rect, me: Extent, others: seq<Extent>)
    ensures var p := Stacked(InitialPlacement(out, me), me.edge, others);
            var w := Workarea(out, others);
            var w' := Workarea(out, others + [me]);
            && (me.edge == Top ==> p.x == out.x && p.y == w.y && w'.y == p.y + me.height)
            && (me.edge == Bottom ==> p.x == out.x && p.y + me.height == w.y + w.height && w'.y + w'.height == p.y)
            && (me.edge == Left ==> p.y == out.y && p.x == w.x && w'.x == p.x + me.width)
            && (me.edge == Right ==> p.y == out.y && p.x + me.width == w.x + w.width && w'.x + w'.width == p.x)
  {
    StackedClosedForm(InitialPlacement(out, me), me.edge, others);
    WorkareaClosedForm(out, others);
    assert (others + [me])[..|others|] == others;
  }

  lemma {:induction false} WithoutCons<T>(y: T, s: seq<T>, x: T)
    ensures Without([y] + s, x) == (if y == x then [] else [y]) + Without(s, x)
    decreases |s|
  {
    if s != [] {
      assert ([y] + s)[..|[y] + s| - 1] == [y] + s[..|s| - 1];
      WithoutCons(y, s[..|s| - 1], x);
    }
  }

  lemma WithoutSnoc<T>(s: seq<T>, y: T, x: T)
    ensures Without(s + [y], x) == Without(s, x) + (if y == x then [] else [y])
  {
    assert (s + [y])[..|s|] == s;
  }

  lemma StackedSnoc(p: Point, edge: Edge, es: seq<Extent>, e: Extent)
    ensures Stacked(p, edge, es + [e]) == StackStep(Stacked(p, edge, es), edge, e)
  {
    assert (es + [e])[..|es|] == es;
  }

  /** A dock: a surface on one edge of one output. */
  class Dock {
    const host: Compositor
    const output: DockOutput
    const position: Edge
    const surface: SurfaceId
    const resource: ResourceId
    var view: Option<ViewId>

    constructor (host: Compositor, output: DockOutput, position: Edge, surface: SurfaceId, resource: ResourceId, view: Option<ViewId>)
      ensures this.host == host && this.output == output && this.position == position
      ensures this.surface == surface && this.resource == resource && this.view == view
    {
      this.host, this.output, this.position := host, output, position;
      this.surface, this.resource, this.view := surface, resource, view;
    }

    predicate PlacementDefined()
      reads host, output
    {
      && output.output in host.outputs && surface in host.surfaces
      && (forall d :: d in output.docks ==> d.surface in host.surfaces)
    }

    /**
     * Where the dock goes when it is first mapped: the corner of its output on
     * its edge, pushed inward past every other dock of the output on that edge.
     */
    function Placement(): Point
      reads host, output
      requires PlacementDefined()
    {
      Stacked(InitialPlacement(host.outputs[output.output].area, ExtentOf(this, host.surfaces)), position,
              Extents(Without(output.docks, this), host.surfaces))
    }

    method StackedPosition() returns (p: Point)
      requires PlacementDefined()
      ensures p == Placement()
    {
      var out := host.outputs[output.output].area;
      var x, y := out.x, out.y;
      if position == Bottom {
        y := y + out.height - host.surfaces[surface].height;
      }
      if position == Right {
        x := x + out.width - host.surfaces[surface].width;
      }
      ghost var surfaces := host.surfaces;
      ghost var start := InitialPlacement(out, ExtentOf(this, surfaces));
      var docks := output.docks;
      var i := 0;
      assert forall d :: d in docks ==> d.surface in surfaces;
      while i < |docks|
        invariant 0 <= i <= |docks|
        invariant Point(x, y) == Stacked(start, position, Extents(Without(docks[..i], this), surfaces))
      {
        var d := docks[i];
        ghost var q := Point(x, y);
        StackedWithoutStep(start, position, docks, i, this, surfaces);
        if d != this && d.position == position {
          var sf := host.surfaces[d.surface];
          match d.position
          case Top => y := y + sf.height;
          case Bottom => y := y - sf.height;
          case Left => x := x + sf.width;
          case Right => x := x - sf.width;
        }
        assert d != this ==> Point(x, y) == StackStep(q, position, ExtentOf(d, surfaces));
        i := i + 1;
      }
      assert docks[..i] == docks;
      p := Point(x, y);
    }

    /**
     * A commit of the dock surface: the first one maps the view at
     * Placement(); later ones change nothing.
     */
    method SurfaceCommitted()
      requires PlacementDefined() && view.Some? && view.value in host.views
      modifies host`views
      ensures old(host.views[view.value]).mapped ==> host.views == old(host.views)
      ensures !old(host.views[view.value]).mapped ==>
                host.views == old(host.views)[view.value := old(host.views[view.value]).(x := old(Placement()).x, y := old(Placement()).y, mapped := true)]
    {
      if host.views[view.value].mapped {
        return;
      }
      var p := StackedPosition();
      host.views := host.views[view.value := host.views[view.value].(x := p.x, y := p.y, mapped := true)];
    }

    /** The dock's view is destroyed: the dock forgets it. */
    method ViewDestroyed()
      modifies this`view
      ensures view.None?
    {
      view := None;
    }
  }

  /** The docks of one output, most recently created first. */
  class DockOutput {
    const output: OutputId
    var docks: seq<Dock>

    constructor (output: OutputId)
      ensures this.output == output && docks == []
    {
      this.output := output;
      docks := [];
    }
  }

  function ExtentOf(d: Dock, surfaces: map<SurfaceId, Surface>): Extent
    requires d.surface in surfaces
  {
    Extent(d.position, surfaces[d.surface].width, surfaces[d.surface].height)
  }

  function Extents(docks: seq<Dock>, surfaces: map<SurfaceId, Surface>): (es: seq<Extent>)
    requires forall d :: d in docks ==> d.surface in surfaces
    ensures |es| == |docks|
    decreases |docks|
  {
    if docks == [] then []
    else Extents(docks[..|docks| - 1], surfaces) + [ExtentOf(docks[|docks| - 1], surfaces)]
  }

  lemma {:induction false} ExtentsAppend(a: seq<Dock>, b: seq<Dock>, surfaces: map<SurfaceId, Surface>)
    requires forall d :: d in a + b ==> d.surface in surfaces
    ensures Extents(a + b, surfaces) == Extents(a, surfaces) + Extents(b, surfaces)
    decreases |b|
  {
    if b == [] {
      assert a + b == a;
    } else {
      assert (a + b)[..|a + b| - 1] == a + b[..|b| - 1];
      ExtentsAppend(a, b[..|b| - 1], surfaces);
    }
  }

  lemma ExtentsSnoc(docks: seq<Dock>, d: Dock, surfaces: map<SurfaceId, Surface>)
    requires forall x :: x in docks + [d] ==> x.surface in surfaces
    ensures Extents(docks + [d], surfaces) == Extents(docks, surfaces) + [ExtentOf(d, surfaces)]
  {
    assert (docks + [d])[..|docks|] == docks;
  }

  /** Stacking past one more dock of the list: a step for every dock but `me`. */
  lemma StackedWithoutStep(start: Point, edge: Edge, docks: seq<Dock>, i: nat, me: Dock, surfaces: map<SurfaceId, Surface>)
    requires i < |docks| && forall d :: d in docks ==> d.surface in surfaces
    ensures Stacked(start, edge, Extents(Without(docks[..i + 1], me), surfaces))
            == if docks[i] == me then Stacked(start, edge, Extents(Without(docks[..i], me), surfaces))
               else StackStep(Stacked(start, edge, Extents(Without(docks[..i], me), surfaces)), edge, ExtentOf(docks[i], surfaces))
  {
    var d := docks[i];
    var before := Without(docks[..i], me);
    assert docks[..i + 1] == docks[..i] + [d];
    WithoutSnoc(docks[..i], d, me);
    if d == me {
      assert Without(docks[..i + 1], me) == before;
    } else {
      ExtentsSnoc(before, d, surfaces);
      StackedSnoc(start, edge, Extents(before, surfaces), ExtentOf(d, surfaces));
    }
  }

  /** The output ids an output list covers. */
  function OutputIds(entries: seq<DockOutput>): set<OutputId> {
    set e | e in entries :: e.output
  }

  /** `entries` without those of output `o`. */
  function Drop(entries: seq<DockOutput>, o: OutputId): (r: seq<DockOutput>)
    ensures forall e :: e in r ==> e in entries && e.output != o
    ensures forall e :: e in entries && e.output != o ==> e in r
    ensures o !in OutputIds(entries) ==> r == entries
    decreases |entries|
  {
    if entries == [] then []
    else Drop(entries[..|entries| - 1], o) + (if entries[|entries| - 1].output == o then [] else [entries[|entries| - 1]])
  }

  /** When `e` is the only entry of its output, removing `e` is dropping its output. */
  lemma {:induction false} WithoutIsDrop(entries: seq<DockOutput>, e: DockOutput)
    requires forall i :: 0 <= i < |entries| && entries[i].output == e.output ==> entries[i] == e
    ensures Without(entries, e) == Drop(entries, e.output)
    decreases |entries|
  {
    if entries != [] {
      WithoutIsDrop(entries[..|entries| - 1], e);
    }
  }

  class Manager {
    const host: Compositor
    /** The bound zww_dock_manager_v2 resources, most recent first. */
    var resources: seq<ResourceId>
    /** The outputs that ever had docks looked up, most recently added first. */
    var outputs: seq<DockOutput>
    var events: seq<DockEvent>
    ghost var Repr: set<DockOutput>

    /** Each output has at most one entry. */
    ghost predicate Valid()
      reads this`outputs, this`Repr
    {
      && (forall e :: e in outputs ==> e in Repr)
      && (forall e1, e2 :: e1 in outputs && e2 in outputs && e1.output == e2.output ==> e1 == e2)
    }

    /** Every dock of every listed output still has its surface. */
    ghost predicate SurfacesLive()
      reads this`outputs, this`Repr, Repr, host
    {
      Valid() && DocksIn(host.surfaces.Keys)
    }

    /** Every dock of every listed output has its surface among `keys`. */
    ghost predicate DocksIn(keys: set<SurfaceId>)
      reads this`outputs, this`Repr, Repr
      requires Valid()
    {
      forall e, d :: e in outputs && d in e.docks ==> d.surface in keys
    }

    constructor (host: Compositor)
      ensures Valid() && this.host == host && resources == [] && outputs == [] && events == [] && Repr == {}
    {
      this.host := host;
      resources, outputs, events := [], [], [];
      Repr := {};
    }

    /** The docks on output `o`, or none when it has no entry. */
    ghost function DocksOn(o: OutputId): seq<Dock>
      reads this`outputs, this`Repr, Repr
      requires Valid()
    {
      if exists i :: 0 <= i < |outputs| && outputs[i].output == o
      then var i :| 0 <= i < |outputs| && outputs[i].output == o; outputs[i].docks
      else []
    }

    lemma DocksOnEntry(e: DockOutput)
      requires Valid() && e in outputs
      ensures DocksOn(e.output) == e.docks
    {
      var i :| 0 <= i < |outputs| && outputs[i].output == e.output && DocksOn(e.output) == outputs[i].docks;
      assert outputs[i] in outputs;
    }

    /** The entry of output `o`, if there is one. */
    method Lookup(o: OutputId) returns (found: Option<DockOutput>)
      ensures found.Some? ==> found.value in outputs && found.value.output == o
      ensures found.None? ==> o !in OutputIds(outputs)
    {
      var i := 0;
      while i < |outputs|
        invariant 0 <= i <= |outputs|
        invariant forall k :: 0 <= k < i ==> outputs[k].output != o
      {
        if outputs[i].output == o {
          return Some(outputs[i]);
        }
        i := i + 1;
      }
      return None;
    }

    /** The entry of output `o`: the existing one, or a new empty one added at the front. */
    method FindOutput(o: OutputId) returns (entry: DockOutput)
      requires Valid()
      modifies this`outputs, this`Repr
      ensures Valid() && entry in outputs && entry in Repr && entry.output == o && old(Repr) <= Repr
      ensures o in OutputIds(old(outputs)) ==> outputs == old(outputs) && Repr == old(Repr)
      ensures o !in OutputIds(old(outputs)) ==> fresh(entry) && entry.docks == [] && outputs == [entry] + old(outputs)
    {
      var found := Lookup(o);
      if found.Some? {
        return found.value;
      }
      entry := new DockOutput(o);
      outputs := [entry] + outputs;
      Repr := Repr + {entry};
    }

    /** Takes one dock's surface off the workarea, the top case falling through to the bottom one and left to right. */
    static method ShrinkArea(area: Rect, position: Edge, sf: Surface) returns (r: Rect)
      ensures r == ShrinkBy(area, Extent(position, sf.width, sf.height))
    {
      r := area;
      if position == Top {
        r := r.(y := r.y + sf.height);
      }
      if position == Top || position == Bottom {
        r := r.(height := r.height - sf.height);
      }
      if position == Left {
        r := r.(x := r.x + sf.width);
      }
      if position == Left || position == Right {
        r := r.(width := r.width - sf.width);
      }
    }

    /** The workarea of an entry's output: its rectangle with every dock of the entry taken off. */
    method GetWorkarea(entry: DockOutput) returns (area: Rect)
      requires entry.output in host.outputs
      requires forall d :: d in entry.docks ==> d.surface in host.surfaces
      ensures area == Workarea(host.outputs[entry.output].area, Extents(entry.docks, host.surfaces))
    {
      area := host.outputs[entry.output].area;
      ghost var start, surfaces := area, host.surfaces;
      var docks := entry.docks;
      var i := 0;
      while i < |docks|
        invariant 0 <= i <= |docks|
        invariant forall d :: d in docks ==> d.surface in surfaces
        invariant area == Workarea(start, Extents(docks[..i], surfaces))
      {
        var d := docks[i];
        area := ShrinkArea(area, d.position, host.surfaces[d.surface]);
        assert docks[..i + 1] == docks[..i] + [d];
        WorkareaSnoc(start, Extents(docks[..i], surfaces), ExtentOf(d, surfaces));
        ExtentsSnoc(docks[..i], d, surfaces);
        i := i + 1;
      }
      assert docks[..i] == docks;
    }

    /** The work-area hook: the workarea of output `o` (looking it up adds an entry when it has none). */
    method OutputWorkArea(o: OutputId) returns (area: Rect)
      requires SurfacesLive() && o in host.outputs
      modifies this`outputs, this`Repr
      ensures SurfacesLive()
      ensures area == Workarea(host.outputs[o].area, Extents(DocksOn(o), host.surfaces))
    {
      var entry := FindOutput(o);
      area := GetWorkarea(entry);
      DocksOnEntry(entry);
    }

    /**
     * create_dock: the surface takes the dock role (or the request is refused
     * with ROLE); the dock goes first on the entry of the requested output
     * (the last output when none is named), gets a new view, and is told the
     * workarea the output's other docks leave.
     */
    method CreateDock(mgr: ResourceId, id: ResourceId, s: SurfaceId, out: Option<OutputId>, pos: Position) returns (d: Dock?)
      requires SurfacesLive() && host.Valid() && s in host.surfaces
      requires RoleFree(host.surfaces[s], DockRole) ==>
                 (out.None? ==> host.outputList != [])
                 && (if out.Some? then out.value else Last(host.outputList).value) in host.outputs
      modifies this`outputs, this`Repr, this`events, Repr, host`surfaces, host`views, host`nextView
      ensures SurfacesLive() && host.Valid() && old(Repr) <= Repr
      ensures !RoleFree(old(host.surfaces[s]), DockRole) ==>
                && d == null && events == old(events) + [RoleRejected(mgr)] && outputs == old(outputs)
                && host.surfaces == old(host.surfaces) && host.views == old(host.views)
      ensures RoleFree(old(host.surfaces[s]), DockRole) ==>
                && d != null
                && d.output.output == (if out.Some? then out.value else Last(old(host.outputList)).value)
                && (d.output.output in OutputIds(old(outputs)) ==> outputs == old(outputs))
                && (d.output.output !in OutputIds(old(outputs)) ==> fresh(d.output) && outputs == [d.output] + old(outputs))
                && Added(d, s, id, if pos == Default then Bottom else pos)
                && (forall e :: e in old(outputs) && e != d.output ==> e.docks == old(e.docks))
    {
      ghost var keys := host.surfaces.Keys;
      var ok := host.SetRole(s, DockRole);
      if !ok {
        events := events + [RoleRejected(mgr)];
        return null;
      }
      assert host.surfaces.Keys == keys;
      var chosen := if out.Some? then out.value else Last(host.outputList).value;
      var entry := FindOutput(chosen);
      var edge: Edge := if pos == Default then Bottom else pos;
      d := NewDock(entry, id, s, edge);
    }

    /**
     * The effect of adding dock `d` for surface `s` on edge `edge`: `d` is new,
     * has a new unmapped view, goes first on its entry's list (the entries of
     * other outputs keep theirs), and its client is told the workarea the
     * entry's other docks leave.
     */
    twostate predicate Added(new d: Dock, s: SurfaceId, id: ResourceId, edge: Edge)
      reads this`outputs, this`events, d, d.output, host`surfaces, host`views, host`outputs
    {
      && fresh(d) && d.host == host && d.surface == s && d.resource == id && d.position == edge
      && d.output in outputs
      && d.view.Some? && d.view.value !in old(host.views)
      && host.views == old(host.views)[d.view.value := View(s, 0, 0, false)]
      && s in old(host.surfaces)
      && host.surfaces == old(host.surfaces)[s := old(host.surfaces[s]).(role := Some(DockRole), views := [d.view.value] + old(host.surfaces[s]).views)]
      && |d.output.docks| >= 1 && d.output.docks[0] == d
      && (var e := d.output; old(allocated(e)) ==> e.docks == [d] + old(e.docks))
      && (var e := d.output; !old(allocated(e)) ==> e.docks == [d])
      && d.output.output in host.outputs
      && (forall x :: x in d.output.docks[1..] ==> x.surface in host.surfaces)
      && events == old(events) + [Configure(id, 1, 1,
                                            Workarea(host.outputs[d.output.output].area, Extents(d.output.docks[1..], host.surfaces)).width,
                                            Workarea(host.outputs[d.output.output].area, Extents(d.output.docks[1..], host.surfaces)).height,
                                            edge)]
    }

    method NewDock(entry: DockOutput, id: ResourceId, s: SurfaceId, edge: Edge) returns (d: Dock)
      requires SurfacesLive() && host.Valid() && s in host.surfaces && entry in outputs && entry.output in host.outputs
      requires s in host.surfaces && host.surfaces[s].role == Some(DockRole)
      modifies this`events, entry, host`surfaces, host`views, host`nextView
      ensures SurfacesLive() && host.Valid() && d.output == entry
      ensures Added(d, s, id, edge)
      ensures forall e :: e in outputs && e != entry ==> e.docks == old(e.docks)
    {
      ghost var keys := host.surfaces.Keys;
      var v := host.CreateView(s);
      assert host.surfaces.Keys == keys;
      d := new Dock(host, entry, edge, s, id, Some(v));
      var area := GetWorkarea(entry);
      events := events + [Configure(id, 1, 1, area.width, area.height, edge)];
      ghost var rest := entry.docks;
      PushDock(entry, d);
      assert entry.docks[1..] == rest;
    }

    /** Puts a dock first on an entry's list. */
    method PushDock(entry: DockOutput, d: Dock)
      requires SurfacesLive() && entry in outputs && d.surface in host.surfaces
      modifies entry
      ensures SurfacesLive()
      ensures entry.docks == [d] + old(entry.docks)
    {
      entry.docks := [d] + entry.docks;
    }

    /**
     * A dock's resource is destroyed: its view (if any) is destroyed, leaving
     * the compositor's views and its surface's view list, and the dock leaves
     * its output's list.
     */
    method DockDestroyed(d: Dock)
      requires SurfacesLive() && host.Valid()
      requires d.view.Some? ==> d.view.value in host.views
      modifies d`view, d.output, host`views, host`surfaces, host`viewList
      ensures SurfacesLive() && host.Valid()
      ensures d.view.None?
      ensures d.output.docks == Without(old(d.output.docks), d)
      ensures old(d.view).Some? ==>
                && host.views == old(host.views) - {old(d.view).value}
                && host.viewList == Without(old(host.viewList), old(d.view).value)
                && var s := old(host.views[d.view.value]).surface;
                   host.surfaces == old(host.surfaces)[s := old(host.surfaces[s]).(views := Without(old(host.surfaces[s]).views, old(d.view).value))]
      ensures old(d.view).None? ==>
                host.views == old(host.views) && host.surfaces == old(host.surfaces) && host.viewList == old(host.viewList)
    {
      ghost var keys := host.surfaces.Keys;
      if d.view.Some? {
        host.DestroyView(d.view.value);
        d.view := None;
      }
      assert host.surfaces.Keys == keys;
      d.output.docks := Without(d.output.docks, d);
    }

    /** An output is destroyed: its entry (looked up, so added first if missing) leaves the list. */
    method OutputDestroyed(o: OutputId)
      requires Valid()
      modifies this`outputs, this`Repr
      ensures Valid()
      ensures outputs == Drop(old(outputs), o)
    {
      var entry := FindOutput(o);
      if o !in OutputIds(old(outputs)) {
        WithoutCons(entry, old(outputs), entry);
        assert entry !in old(outputs);
      } else {
        assert forall i :: 0 <= i < |outputs| ==> outputs[i] in outputs;
        WithoutIsDrop(outputs, entry);
      }
      outputs := Without(outputs, entry);
    }

    /** A client binds the dock manager; any number of clients may. */
    method Bind(r: ResourceId)
      modifies this`resources
      ensures resources == [r] + old(resources)
    {
      resources := [r] + resources;
    }

    method Unbind(r: ResourceId)
      modifies this`resources
      ensures resources == Without(old(resources), r)
    {
      resources := Without(resources, r);
    }
  }
}
