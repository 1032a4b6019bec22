/** The visitor of the `nodes` query: what each callback does to the path and the result sets. */
module Visitor {
  import opened Values
  import opened Graphs
  import opened Traversal

  /** The path of the traversal, current vertex first, and the five result containers. */
  datatype Marks = Marks(
    path: seq<Vertex>,
    valid: set<Vertex>,
    models: map<Vertex, set<Vertex>>,
    suppressed: set<Vertex>,
    severity: map<Vertex, int>,
    access: map<Vertex, string>)

  const NO_MARKS := Marks([], {}, map[], {}, map[], map[])

  predicate IsElement(d: Modelhierarchy) {
    FlagAt(d.properties, "is_modelelement")
  }

  /** With a KPI filter, an element that has a KPI group must have one that is listed; an
      element without the property passes. */
  predicate PassesKpi(kpis: seq<string>, n: Node) {
    kpis == [] || "kpigroup_id" !in n || (n["kpigroup_id"].StrV? && n["kpigroup_id"].s in kpis)
  }

  predicate IsPassing(kpis: seq<string>, d: Modelhierarchy) {
    IsElement(d) && PassesKpi(kpis, d.properties)
  }

  /** An element is a vertex flagged true, and with a KPI filter it passes if it has no group or
      its group is one of those listed; a null group is not. */
  lemma PassingMeans(kpis: seq<string>, d: Modelhierarchy)
    ensures var n := d.properties;
            && (IsElement(d) <==> "is_modelelement" in n && n["is_modelelement"] == BoolV(true))
            && (IsPassing(kpis, d) <==>
                  && "is_modelelement" in n && n["is_modelelement"] == BoolV(true)
                  && (kpis != [] && "kpigroup_id" in n ==> exists k :: k in kpis && n["kpigroup_id"] == StrV(k)))
  {
    LookupsMean(d.properties, "is_modelelement");
    var n := d.properties;
    if "kpigroup_id" in n && n["kpigroup_id"].StrV? { assert n["kpigroup_id"] == StrV(n["kpigroup_id"].s); }
  }

  /** Walking up the path, stopping at the first vertex already marked. */
  function MarkPath(valid: set<Vertex>, path: seq<Vertex>): set<Vertex>
    decreases |path|
  {
    if path == [] || path[0] in valid then valid else MarkPath(valid + {path[0]}, path[1..])
  }

  function ModelsAt(models: map<Vertex, set<Vertex>>, k: Vertex): set<Vertex> {
    if k in models then models[k] else {}
  }

  function SeverityAt(severity: map<Vertex, int>, v: Vertex): Option<int> {
    if v in severity then Some(severity[v]) else None
  }

  function Higher(a: Option<int>, b: Option<int>): Option<int> {
    if a.None? then b
    else if b.None? || a.value >= b.value then a
    else b
  }

  /** The severity of v becomes the higher of what it has and what is offered. */
  function Raise(severity: map<Vertex, int>, v: Vertex, offered: Option<int>): map<Vertex, int> {
    if offered.None? then severity
    else severity[v := Higher(SeverityAt(severity, v), offered).value]
  }

  // ----- the callbacks as functions ---------------------------------------------------------

  function OnDiscover(kpis: seq<string>, m: Marks, v: Vertex, d: Modelhierarchy): Marks {
    var path := [v] + m.path;
    if !IsPassing(kpis, d) then m.(path := path)
    else if |path| < 2 then m.(path := path, valid := MarkPath(m.valid, path))
    else
      var level2 := path[|path| - 2];
      m.(path := path,
         valid := MarkPath(m.valid, path),
         models := m.models[level2 := ModelsAt(m.models, level2) + {path[1]}])
  }

  function OnFinishVertex(m: Marks): Marks {
    if m.path == [] then m else m.(path := m.path[1..])
  }

  function OnFinishEdge(m: Marks, u: Vertex, v: Vertex, d: Modelhierarchy): Marks {
    m.(access := AccessAfter(m.access, u, v, d),
       suppressed := SuppressedAfter(m.suppressed, u, v, d),
       severity := SeverityAfter(m.severity, u, v, d))
  }

  function AccessAfter(access: map<Vertex, string>, u: Vertex, v: Vertex, d: Modelhierarchy): map<Vertex, string> {
    match StringAt(d.properties, "dataaccesslevel")
    case Some(level) => access[v := level]
    case None => if u in access then access[v := access[u]] else access
  }

  function SuppressedAfter(suppressed: set<Vertex>, u: Vertex, v: Vertex, d: Modelhierarchy): set<Vertex> {
    if IsElement(d) then
      if FlagAt(d.properties, "issuppressed") then suppressed + {u, v} else suppressed
    else
      if v in suppressed then suppressed + {u} else suppressed
  }

  function SeverityAfter(severity: map<Vertex, int>, u: Vertex, v: Vertex, d: Modelhierarchy): map<Vertex, int> {
    if IsElement(d) then
      match IntAt(d.properties, "severity")
      case Some(own) => Raise(severity[v := own], u, Some(own))
      case None => severity
    else
      Raise(severity, u, SeverityAt(severity, v))
  }

  function Callback(kpis: seq<string>, m: Marks, e: Event): Marks {
    match e
    case DiscoverVertex(v, d) => OnDiscover(kpis, m, v, d)
    case FinishVertex(_) => OnFinishVertex(m)
    case FinishEdge(u, v, d) => OnFinishEdge(m, u, v, d)
  }

  function Run(kpis: seq<string>, m: Marks, es: seq<Event>): Marks {
    if es == [] then m else Callback(kpis, Run(kpis, m, es[..|es| - 1]), es[|es| - 1])
  }

  // ----- the visitor object ---------------------------------------------------------------

  /** Discovering the vertex does not throw. */
  predicate CanDiscover(d: Modelhierarchy) {
    "is_modelelement" in d.properties ==> d.properties["is_modelelement"].BoolV?
  }

  /** Finishing an edge into the vertex does not throw; flag and severity are read on elements
      only. */
  predicate CanFinishEdge(d: Modelhierarchy) {
    var n := d.properties;
    && CanDiscover(d)
    && ("dataaccesslevel" in n ==> n["dataaccesslevel"].StrV?)
    && (IsElement(d) ==>
          && ("issuppressed" in n ==> n["issuppressed"].BoolV?)
          && ("severity" in n ==> n["severity"].IntV?))
  }

  class FilteredHierarchyVisitor {
    const kpis: seq<string>
    var path: seq<Vertex>
    var valid: set<Vertex>
    var models: map<Vertex, set<Vertex>>
    var suppressed: set<Vertex>
    var severity: map<Vertex, int>
    var access: map<Vertex, string>

    function State(): Marks
      reads this
    {
      Marks(path, valid, models, suppressed, severity, access)
    }

    constructor (kpis: seq<string>)
      ensures this.kpis == kpis && State() == NO_MARKS
    {
      this.kpis := kpis;
      path, valid, models, suppressed, severity, access := [], {}, map[], {}, map[], map[];
    }

    /** A passing element must not be the start of the traversal: both index expressions
        reach one past a path of length one. */
    method DiscoverVertex(v: Vertex, d: Modelhierarchy)
      requires CanDiscover(d) && (IsPassing(kpis, d) ==> path != [])
      modifies this
      ensures State() == OnDiscover(kpis, old(State()), v, d)
    {
      path := [v] + path;
      if "is_modelelement" in d.properties && d.properties["is_modelelement"].b {
        if |kpis| != 0 && "kpigroup_id" in d.properties {
          if d.properties["kpigroup_id"].StrV? {
            if d.properties["kpigroup_id"].s !in kpis {
              return;
            }
          } else {
            return;
          }
        }
        var i := 0;
        while i < |path|
          invariant 0 <= i <= |path|
          invariant MarkPath(valid, path[i..]) == MarkPath(old(valid), path)
          invariant path == [v] + old(path) && models == old(models) && suppressed == old(suppressed)
          invariant severity == old(severity) && access == old(access)
        {
          assert path[i..][0] == path[i] && path[i..][1..] == path[i + 1..];
          if path[i] in valid {
            break;
          }
          valid := valid + {path[i]};
          i := i + 1;
        }
        assert valid == MarkPath(old(valid), path);
        var level2 := path[|path| - 2];
        models := models[level2 := ModelsAt(models, level2) + {path[1]}];
      }
    }

    method FinishVertex(ghost v: Vertex)
      requires path != []
      modifies this
      ensures State() == OnFinishVertex(old(State()))
    {
      path := path[1..];
    }

    method FinishEdge(u: Vertex, v: Vertex, d: Modelhierarchy)
      requires CanFinishEdge(d)
      modifies this
      ensures State() == OnFinishEdge(old(State()), u, v, d)
    {
      if "dataaccesslevel" in d.properties {
        access := access[v := d.properties["dataaccesslevel"].s];
      } else if u in access {
        access := access[v := access[u]];
      }
      if "is_modelelement" in d.properties && d.properties["is_modelelement"].b {
        FinishElementEdge(u, v, d);
      } else {
        FinishOtherEdge(u, v, d);
      }
    }

    /** The target is a model element: its own flag and severity count, not what lies below it. */
    method FinishElementEdge(u: Vertex, v: Vertex, d: Modelhierarchy)
      requires IsElement(d) && CanFinishEdge(d)
      modifies this`suppressed, this`severity
      ensures suppressed == SuppressedAfter(old(suppressed), u, v, d)
      ensures severity == SeverityAfter(old(severity), u, v, d)
    {
      if "issuppressed" in d.properties && d.properties["issuppressed"].b {
        suppressed := suppressed + {u};
        suppressed := suppressed + {v};
      }
      if "severity" in d.properties {
        severity := severity[v := d.properties["severity"].i];
        PropagateSeverity(u, v);
      }
    }

    /** The target is any other vertex: what was marked on it so far moves up. */
    method FinishOtherEdge(u: Vertex, v: Vertex, d: Modelhierarchy)
      requires !IsElement(d)
      modifies this`suppressed, this`severity
      ensures suppressed == SuppressedAfter(old(suppressed), u, v, d)
      ensures severity == SeverityAfter(old(severity), u, v, d)
    {
      if v in suppressed {
        suppressed := suppressed + {u};
      }
      if v in severity {
        PropagateSeverity(u, v);
      }
    }

    method PropagateSeverity(u: Vertex, v: Vertex)
      requires v in severity
      modifies this`severity
      ensures severity == Raise(old(severity), u, Some(old(severity)[v]))
    {
      if u in severity {
        severity := severity[u := if severity[u] >= severity[v] then severity[u] else severity[v]];
      } else {
        severity := severity[u := severity[v]];
      }
    }
  }
}
