/** The representation both symbol tables use in the source: a `Map` from scope paths
    (`global`, `global=>f`, `global=>f=>while`, ...) to frames, and the path of the
    current scope. A JavaScript `Map` keeps its entries in insertion order, and setting
    a key it already has keeps that key's place, so it is modelled as the list of its
    entries. Used the way the interpreter uses it, every `enterScope` matched by an
    `exitScope`, this map is the stack of frames of the modules Variables and Functions:
    the lemmas here show each operation on the map does what the stack operation does to
    the frames. */
module ScopePaths {

  import opened Base
  import opened Ast
  import opened Values
  import opened Variables
  import opened Functions

  /** `entries` are the map's entries in insertion order, `current` the current path. */
  datatype Scoped<V> = Scoped(entries: seq<(string, map<string, V>)>, current: string)

  /** The place of the entry whose key is `k`, if there is one (`Map.prototype.has`). */
  function Find<V>(entries: seq<(string, map<string, V>)>, k: string): (r: Option<nat>)
    ensures r.Some? ==> r.value < |entries| && entries[r.value].0 == k
    ensures r.None? ==> forall i :: 0 <= i < |entries| ==> entries[i].0 != k
  {
    if |entries| == 0 then None
    else if entries[|entries| - 1].0 == k then Some(|entries| - 1)
    else Find(entries[..|entries| - 1], k)
  }

  /** `Map.prototype.delete`: the entries without those whose key is `k`. */
  function Delete<V>(entries: seq<(string, map<string, V>)>, k: string): seq<(string, map<string, V>)>
  {
    if |entries| == 0 then []
    else (if entries[0].0 == k then [] else [entries[0]]) + Delete(entries[1..], k)
  }

  /** The constructor: the global frame, and `global` as the current path. */
  function Initial<V>(): Scoped<V>
  {
    Scoped([("global", map[])], "global")
  }

  /** `enterScope`: the current path grows by `=>` and the scope's name, and gets an
      empty frame if the map has none for it. */
  function Enter<V>(t: Scoped<V>, scope: string): Scoped<V>
  {
    var path := t.current + "=>" + scope;
    if Find(t.entries, path).Some? then t.(current := path)
    else Scoped(t.entries + [(path, map[])], path)
  }

  /** `exitScope`: the current frame is deleted, and the last key left becomes the
      current path (`global` when none is left or the last key is empty). */
  function Exit<V>(t: Scoped<V>): Scoped<V>
  {
    var entries := Delete(t.entries, t.current);
    Scoped(entries,
           if |entries| == 0 || entries[|entries| - 1].0 == "" then "global" else entries[|entries| - 1].0)
  }

  /** How the map stands as long as scopes are entered and left in turn: every path is
      longer than the one before it, none is empty, and the current path is the last. */
  predicate Chained<V>(t: Scoped<V>)
  {
    && (forall i, j :: 0 <= i < j < |t.entries| ==> |t.entries[i].0| < |t.entries[j].0|)
    && (forall i :: 0 <= i < |t.entries| ==> |t.entries[i].0| > 0)
    && t.current == (if |t.entries| == 0 then "global" else t.entries[|t.entries| - 1].0)
  }

  /** The frames in insertion order: the stack the map stands for. */
  function Frames<V>(entries: seq<(string, map<string, V>)>): (r: seq<map<string, V>>)
    ensures |r| == |entries| && forall i :: 0 <= i < |entries| ==> r[i] == entries[i].1
  {
    seq(|entries|, i requires 0 <= i < |entries| => entries[i].1)
  }

  /** The scan of the keys from the last to the first for a frame that has `name`. */
  function Scan<V>(entries: seq<(string, map<string, V>)>, name: string): (r: Option<nat>)
    ensures r.Some? ==> r.value < |entries| && name in entries[r.value].1
  {
    if |entries| == 0 then None
    else if name in entries[|entries| - 1].1 then Some(|entries| - 1)
    else Scan(entries[..|entries| - 1], name)
  }

  /** Under the chain the current path is the key of the last entry and of no other. */
  lemma CurrentIsLast<V>(t: Scoped<V>)
    requires Chained(t)
    ensures Find(t.entries, t.current) == if |t.entries| == 0 then None else Some(|t.entries| - 1)
  {
  }

  lemma InitialIsGlobalFrame<V>()
    ensures Chained(Initial<V>()) && Frames(Initial<V>().entries) == [map[]]
  {
  }

  /** Entering pushes an empty frame: the new path is longer than every key, so the map
      has no frame for it yet. */
  lemma EnterPushes<V>(t: Scoped<V>, scope: string)
    requires Chained(t)
    ensures Chained(Enter(t, scope))
    ensures Frames(Enter(t, scope).entries) == Frames(t.entries) + [map[]]
  {
    var path := t.current + "=>" + scope;
    forall i | 0 <= i < |t.entries|
      ensures |t.entries[i].0| < |path|
    {
      if i < |t.entries| - 1 {
        assert |t.entries[i].0| < |t.entries[|t.entries| - 1].0|;
      }
    }
    assert Find(t.entries, path).None?;
  }

  lemma {:induction false} DeleteLast<V>(entries: seq<(string, map<string, V>)>)
    requires |entries| > 0
    requires forall i :: 0 <= i < |entries| - 1 ==> entries[i].0 != entries[|entries| - 1].0
    ensures Delete(entries, entries[|entries| - 1].0) == entries[..|entries| - 1]
  {
    if |entries| > 1 {
      assert entries[1..][|entries[1..]| - 1] == entries[|entries| - 1];
      DeleteLast(entries[1..]);
      assert entries[1..][..|entries[1..]| - 1] == entries[1..|entries| - 1];
      assert entries[..|entries| - 1] == [entries[0]] + entries[1..|entries| - 1];
    }
  }

  /** Exiting pops the current frame, and the path before it becomes current again. */
  lemma ExitPops<V>(t: Scoped<V>)
    requires Chained(t)
    ensures Chained(Exit(t))
    ensures Frames(Exit(t).entries) == Pop(Frames(t.entries))
  {
    var n := |t.entries| - 1;
    if n >= 0 {
      forall i | 0 <= i < n
        ensures t.entries[i].0 != t.entries[n].0
      {
        assert |t.entries[i].0| < |t.entries[n].0|;
      }
      DeleteLast(t.entries);
      assert Frames(t.entries[..n]) == Frames(t.entries)[..n];
    }
  }

  lemma {:induction false} ScanIsHolder<V>(entries: seq<(string, map<string, V>)>, name: string)
    ensures Scan(entries, name) == Holder(Frames(entries), name)
  {
    if |entries| > 0 {
      var front := entries[..|entries| - 1];
      ScanIsHolder(front, name);
      assert Frames(entries)[..|entries| - 1] == Frames(front);
    }
  }

  /** Replacing the frame of one entry keeps the chain and changes that one frame. */
  lemma Rewrite<V>(t: Scoped<V>, i: nat, f: map<string, V>)
    requires Chained(t) && i < |t.entries|
    ensures Chained(t.(entries := t.entries[i := (t.entries[i].0, f)]))
    ensures Frames(t.entries[i := (t.entries[i].0, f)]) == Frames(t.entries)[i := f]
  {
  }

  // ---------------------------------------------------------------------------
  // The variable table's operations on the map

  function AddVariable(t: Scoped<LiteralNode>, name: string, value: LiteralNode): Result<Scoped<LiteralNode>, Failure>
  {
    match Find(t.entries, t.current)
    case None => Err(Thrown(SyntaxError, None))
    case Some(i) =>
      if name in t.entries[i].1 then Err(Thrown(SyntaxError, None))
      else Ok(t.(entries := t.entries[i := (t.current, t.entries[i].1[name := value])]))
  }

  function GetVariableValue(t: Scoped<LiteralNode>, name: string): Result<LiteralNode, Failure>
  {
    match Scan(t.entries, name)
    case Some(i) => Ok(t.entries[i].1[name])
    case None => Err(Thrown(ReferenceError, None))
  }

  function UpdateVariableValue(t: Scoped<LiteralNode>, name: string, value: LiteralNode, line: nat): Result<Scoped<LiteralNode>, Failure>
  {
    match Scan(t.entries, name)
    case None => Err(Thrown(ReferenceError, None))
    case Some(i) =>
      var current := GetVariableValue(t, name);
      if current.Ok? && value.TypeOf() == current.value.TypeOf() then
        Ok(t.(entries := t.entries[i := (t.entries[i].0, t.entries[i].1[name := value])]))
      else Err(Thrown(TypeError, Some(line)))
  }

  /** Adding to the map is declaring in the current frame. */
  lemma AddVariableDeclares(t: Scoped<LiteralNode>, name: string, value: LiteralNode)
    requires Chained(t)
    ensures AddVariable(t, name, value).Ok? <==> Declare(Frames(t.entries), name, value).Ok?
    ensures AddVariable(t, name, value).Err? ==>
      AddVariable(t, name, value).error == Declare(Frames(t.entries), name, value).error
    ensures AddVariable(t, name, value).Ok? ==>
      && Chained(AddVariable(t, name, value).value)
      && Frames(AddVariable(t, name, value).value.entries) == Declare(Frames(t.entries), name, value).value
  {
    CurrentIsLast(t);
    if |t.entries| > 0 {
      var n := |t.entries| - 1;
      var f := t.entries[n].1[name := value];
      Rewrite(t, n, f);
      assert Frames(t.entries)[n := f] == Frames(t.entries)[..n] + [f];
    }
  }

  /** Reading through the map is looking up in the stack. */
  lemma GetVariableValueLooksUp(t: Scoped<LiteralNode>, name: string)
    ensures GetVariableValue(t, name) == Lookup(Frames(t.entries), name)
  {
    ScanIsHolder(t.entries, name);
  }

  /** Updating through the map is assigning in the stack. */
  lemma UpdateVariableValueAssigns(t: Scoped<LiteralNode>, name: string, value: LiteralNode, line: nat)
    requires Chained(t)
    ensures UpdateVariableValue(t, name, value, line).Ok? <==> Assign(Frames(t.entries), name, value, line).Ok?
    ensures UpdateVariableValue(t, name, value, line).Err? ==>
      UpdateVariableValue(t, name, value, line).error == Assign(Frames(t.entries), name, value, line).error
    ensures UpdateVariableValue(t, name, value, line).Ok? ==>
      && Chained(UpdateVariableValue(t, name, value, line).value)
      && Frames(UpdateVariableValue(t, name, value, line).value.entries) == Assign(Frames(t.entries), name, value, line).value
  {
    ScanIsHolder(t.entries, name);
    match Scan(t.entries, name)
    case None =>
    case Some(i) =>
      Rewrite(t, i, t.entries[i].1[name := value]);
  }

  // ---------------------------------------------------------------------------
  // The function table's operations on the map

  function AddFunction(t: Scoped<seq<FunctionDef>>, def: FunctionDef): Result<Scoped<seq<FunctionDef>>, Failure>
  {
    match Find(t.entries, t.current)
    case None => Err(Thrown(TypeError, None))
    case Some(i) =>
      var frame := t.entries[i].1;
      if def.name !in frame then Ok(t.(entries := t.entries[i := (t.current, frame[def.name := [def]])]))
      else if exists k :: 0 <= k < |frame[def.name]| && Conflicts(frame[def.name][k], def) then
        Err(Thrown(SyntaxError, None))
      else Ok(t.(entries := t.entries[i := (t.current, frame[def.name := frame[def.name] + [def]])]))
  }

  function GetFunction(t: Scoped<seq<FunctionDef>>, name: string, args: seq<LiteralNode>): Result<FunctionDef, Failure>
  {
    match Scan(t.entries, name)
    case None => Err(Thrown(ReferenceError, None))
    case Some(i) => Select(t.entries[i].1[name], args, 0)
  }

  /** Adding to the map is defining in the current frame. */
  lemma AddFunctionDefines(t: Scoped<seq<FunctionDef>>, def: FunctionDef)
    requires Chained(t)
    ensures AddFunction(t, def).Ok? <==> Define(Frames(t.entries), def).Ok?
    ensures AddFunction(t, def).Err? ==> AddFunction(t, def).error == Define(Frames(t.entries), def).error
    ensures AddFunction(t, def).Ok? ==>
      && Chained(AddFunction(t, def).value)
      && Frames(AddFunction(t, def).value.entries) == Define(Frames(t.entries), def).value
  {
    CurrentIsLast(t);
    if |t.entries| > 0 {
      var n := |t.entries| - 1;
      var top := t.entries[n].1;
      var f := if def.name !in top then top[def.name := [def]] else top[def.name := top[def.name] + [def]];
      Rewrite(t, n, f);
      assert Frames(t.entries)[n := f] == Frames(t.entries)[..n] + [f];
    }
  }

  /** Resolving through the map is resolving in the stack. */
  lemma GetFunctionResolves(t: Scoped<seq<FunctionDef>>, name: string, args: seq<LiteralNode>)
    ensures GetFunction(t, name, args) == Resolve(Frames(t.entries), name, args)
  {
    ScanIsHolder(t.entries, name);
  }
}
