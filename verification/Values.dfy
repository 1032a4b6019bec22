/** The dictionaries exchanged with clients and stored on every vertex. */
module Values {

  datatype Option<+T> = None | Some(value: T)

  /** One dictionary value; the alternatives of the program's variant type, in its order. */
  datatype Value =
    | BoolV(b: bool)
    | IntV(i: int)
    | RealV(r: real)
    | NoneV
    | StrV(s: string)
    | IntsV(ints: seq<int>)
    | StrsV(strs: seq<string>)

  type Node = map<string, Value>

  /** What a vertex carries. */
  datatype Modelhierarchy = Modelhierarchy(id: string, properties: Node)

  predicate FlagAt(n: Node, key: string) {
    key in n && n[key].BoolV? && n[key].b
  }

  function IntAt(n: Node, key: string): Option<int> {
    if key in n && n[key].IntV? then Some(n[key].i) else None
  }

  function StringAt(n: Node, key: string): Option<string> {
    if key in n && n[key].StrV? then Some(n[key].s) else None
  }

  /** A list of strings, or the empty list when the key is missing or holds something else. */
  function StringsAt(n: Node, key: string): seq<string> {
    if key in n && n[key].StrsV? then n[key].strs else []
  }

  /** A lookup finds exactly the value of its own type stored under the key. */
  lemma LookupsMean(n: Node, key: string)
    ensures FlagAt(n, key) <==> key in n && n[key] == BoolV(true)
    ensures forall i :: IntAt(n, key) == Some(i) <==> key in n && n[key] == IntV(i)
    ensures forall s :: StringAt(n, key) == Some(s) <==> key in n && n[key] == StrV(s)
    ensures forall l :: key in n && n[key] == StrsV(l) ==> StringsAt(n, key) == l
    ensures (key in n ==> forall l :: n[key] != StrsV(l)) ==> StringsAt(n, key) == []
  {
    if key in n && n[key].StrsV? { assert n[key] == StrsV(n[key].strs); }
  }

  ghost predicate NoDuplicates<T>(s: seq<T>) {
    forall i, j :: 0 <= i < j < |s| ==> s[i] != s[j]
  }

  ghost function Elements<T>(s: seq<T>): set<T> {
    set x | x in s
  }
}
