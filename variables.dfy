/** The variable table (src/symbolTable/VariableTable.ts) as a stack of frames, the
    innermost last. The source keeps the frames in a map keyed by scope paths; the
    module ScopePaths shows that map behaves as this stack. */
module Variables {

  import opened Base
  import opened Ast
  import opened Values

  /** One frame: the variables a scope declares. */
  type Frame = map<string, LiteralNode>

  /** The index of the innermost frame that binds `name`. */
  function Holder<V>(frames: seq<map<string, V>>, name: string): (r: Option<nat>)
    ensures r.Some? ==> r.value < |frames| && name in frames[r.value]
    ensures r.Some? ==> forall j :: r.value < j < |frames| ==> name !in frames[j]
    ensures r.None? ==> forall j :: 0 <= j < |frames| ==> name !in frames[j]
  {
    if |frames| == 0 then None
    else if name in frames[|frames| - 1] then Some(|frames| - 1)
    else Holder(frames[..|frames| - 1], name)
  }

  /** `getVariableValue`: the binding of the innermost frame that holds the name. */
  function Lookup(frames: seq<Frame>, name: string): Result<LiteralNode, Failure>
  {
    match Holder(frames, name)
    case Some(i) => Ok(frames[i][name])
    case None => Err(Thrown(ReferenceError, None))
  }

  /** `addVariable`: binds the name in the current frame, unless that frame already
      binds it or there is no current frame. */
  function Declare(frames: seq<Frame>, name: string, value: LiteralNode): Result<seq<Frame>, Failure>
  {
    if |frames| > 0 && name !in frames[|frames| - 1] then
      Ok(frames[..|frames| - 1] + [frames[|frames| - 1][name := value]])
    else Err(Thrown(SyntaxError, None))
  }

  /** `updateVariableValue`: overwrites the binding in the innermost frame that holds the
      name, when the new value has the type of the old one. */
  function Assign(frames: seq<Frame>, name: string, value: LiteralNode, line: nat): Result<seq<Frame>, Failure>
  {
    match Holder(frames, name)
    case None => Err(Thrown(ReferenceError, None))
    case Some(i) =>
      if value.TypeOf() == frames[i][name].TypeOf() then Ok(frames[i := frames[i][name := value]])
      else Err(Thrown(TypeError, Some(line)))
  }

  /** `exitScope`: the current frame goes; with no frame left nothing changes. */
  function Pop<F>(frames: seq<F>): (r: seq<F>)
    ensures |frames| > 0 ==> |r| == |frames| - 1
  {
    if |frames| == 0 then [] else frames[..|frames| - 1]
  }

  /** The innermost binding wins: a lookup finds a value exactly when some frame binds the
      name, and the value it finds is the one of the innermost such frame. */
  lemma LookupFindsInnermost(frames: seq<Frame>, name: string, i: nat)
    requires i < |frames| && name in frames[i]
    requires forall j :: i < j < |frames| ==> name !in frames[j]
    ensures Lookup(frames, name) == Ok(frames[i][name])
  {
  }

  lemma LookupFails(frames: seq<Frame>, name: string)
    ensures Lookup(frames, name).Err? <==> forall j :: 0 <= j < |frames| ==> name !in frames[j]
    ensures Lookup(frames, name).Err? ==> Lookup(frames, name).error == Thrown(ReferenceError, None)
  {
    if Holder(frames, name).Some? {
      var i := Holder(frames, name).value;
      assert name in frames[i];
    }
  }

  /** A declaration fails exactly when the current frame already binds the name (or there
      is no frame); shadowing a name of an outer frame is allowed. After it, the name
      reads as the new value and every other name reads as before. */
  lemma DeclareBinds(frames: seq<Frame>, name: string, value: LiteralNode, other: string)
    ensures Declare(frames, name, value).Err? <==> |frames| == 0 || name in frames[|frames| - 1]
    ensures Declare(frames, name, value).Ok? ==>
      var after := Declare(frames, name, value).value;
      && |after| == |frames| && after[..|after| - 1] == frames[..|frames| - 1]
      && Lookup(after, name) == Ok(value)
      && (other != name ==> Lookup(after, other) == Lookup(frames, other))
  {
    if Declare(frames, name, value).Ok? {
      var after := Declare(frames, name, value).value;
      var n := |frames| - 1;
      LookupFindsInnermost(after, name, n);
      if other != name {
        if Holder(frames, other).Some? {
          var i := Holder(frames, other).value;
          LookupFindsInnermost(after, other, i);
        } else {
          LookupFails(frames, other);
          LookupFails(after, other);
        }
      }
    }
  }

  /** An assignment throws ReferenceError exactly when no frame binds the name, and
      TypeError with the statement's line exactly when the bound value has another type.
      Otherwise only that one binding changes: the name reads as the new value, every
      other name as before, and the number of frames stays. */
  lemma AssignUpdates(frames: seq<Frame>, name: string, value: LiteralNode, line: nat, other: string)
    ensures Assign(frames, name, value, line) == Err(Thrown(ReferenceError, None)) <==> Lookup(frames, name).Err?
    ensures Assign(frames, name, value, line) == Err(Thrown(TypeError, Some(line)))
            <==> Lookup(frames, name).Ok? && Lookup(frames, name).value.TypeOf() != value.TypeOf()
    ensures Assign(frames, name, value, line).Ok? ==>
      var after := Assign(frames, name, value, line).value;
      && |after| == |frames|
      && Lookup(after, name) == Ok(value)
      && (other != name ==> Lookup(after, other) == Lookup(frames, other))
      && (forall j :: 0 <= j < |frames| && j != Holder(frames, name).value ==> after[j] == frames[j])
  {
    if Assign(frames, name, value, line).Ok? {
      var after := Assign(frames, name, value, line).value;
      var i := Holder(frames, name).value;
      LookupFindsInnermost(after, name, i);
      if other != name {
        if Holder(frames, other).Some? {
          var k := Holder(frames, other).value;
          LookupFindsInnermost(after, other, k);
        } else {
          LookupFails(frames, other);
          LookupFails(after, other);
        }
      }
    }
  }

  /** Entering a scope, declaring in it and leaving it again restores every lookup. */
  lemma ScopeRestores(frames: seq<Frame>, name: string, value: LiteralNode, other: string)
    ensures Declare(frames + [map[]], name, value).Ok?
    ensures Pop(Declare(frames + [map[]], name, value).value) == frames
    ensures Lookup(Pop(Declare(frames + [map[]], name, value).value), other) == Lookup(frames, other)
  {
    var inner := frames + [map[]];
    assert inner[..|inner| - 1] == frames;
  }

  /** The table: the frames, the innermost last. */
  class VariableTable {
    var frames: seq<Frame>

    /** A table with the global frame only. */
    constructor()
      ensures frames == [map[]]
    {
      frames := [map[]];
    }

    /** `enterScope`: a new, empty frame. The scope name only forms the source's key. */
    method EnterScope(scope: string)
      modifies this
      ensures frames == old(frames) + [map[]]
    {
      frames := frames + [map[]];
    }

    /** `exitScope`: the current frame is discarded. */
    method ExitScope()
      modifies this
      ensures frames == Pop(old(frames))
    {
      if |frames| > 0 {
        frames := frames[..|frames| - 1];
      }
    }

    method AddVariable(name: string, value: LiteralNode) returns (r: Result<(), Failure>)
      modifies this
      ensures Declare(old(frames), name, value) == (if r.Ok? then Ok(frames) else Err(r.error))
      ensures r.Err? ==> frames == old(frames)
    {
      if |frames| > 0 && name !in frames[|frames| - 1] {
        frames := frames[..|frames| - 1] + [frames[|frames| - 1][name := value]];
        return Ok(());
      }
      return Err(Thrown(SyntaxError, None));
    }

    /** Scans the frames innermost first. */
    method GetVariableValue(name: string) returns (r: Result<LiteralNode, Failure>)
      ensures r == Lookup(frames, name)
    {
      var i := |frames|;
      while i > 0
        invariant 0 <= i <= |frames|
        invariant Holder(frames, name) == Holder(frames[..i], name)
      {
        if name in frames[i - 1] {
          return Ok(frames[i - 1][name]);
        }
        assert frames[..i][..i - 1] == frames[..i - 1];
        i := i - 1;
      }
      return Err(Thrown(ReferenceError, None));
    }

    method UpdateVariableValue(name: string, value: LiteralNode, line: nat) returns (r: Result<(), Failure>)
      modifies this
      ensures Assign(old(frames), name, value, line) == (if r.Ok? then Ok(frames) else Err(r.error))
      ensures r.Err? ==> frames == old(frames)
    {
      var i := |frames|;
      while i > 0
        invariant 0 <= i <= |frames|
        invariant Holder(frames, name) == Holder(frames[..i], name)
      {
        if name in frames[i - 1] {
          var current := GetVariableValue(name);
          if value.TypeOf() == current.value.TypeOf() {
            frames := frames[i - 1 := frames[i - 1][name := value]];
            return Ok(());
          }
          return Err(Thrown(TypeError, Some(line)));
        }
        assert frames[..i][..i - 1] == frames[..i - 1];
        i := i - 1;
      }
      return Err(Thrown(ReferenceError, None));
    }
  }
}
