/** The function table (src/symbolTable/FunctionTable.ts) as a stack of frames, the
    innermost last; each frame maps a name to its overloads in definition order. */
module Functions {

  import opened Base
  import opened Ast
  import opened Values
  import opened Variables

  /** One frame: the overloads each name has in a scope. */
  type FunctionFrame = map<string, seq<FunctionDef>>

  /** The two ways a definition clashes with an existing overload: both take no
      parameters, or they take as many parameters with the very same annotation objects. */
  predicate Conflicts(existing: FunctionDef, def: FunctionDef)
  {
    || (|existing.params| == 0 && |def.params| == 0)
    || (|existing.params| == |def.params|
        && forall i :: 0 <= i < |existing.params| ==> existing.params[i].paramType == def.params[i].paramType)
  }

  /** `addFunction`: the first definition of a name in the current frame starts its
      overload list, and a later one that clashes with none of the list is appended.
      With no current frame, reading the frame's `has` throws. */
  function Define(frames: seq<FunctionFrame>, def: FunctionDef): Result<seq<FunctionFrame>, Failure>
  {
    if |frames| == 0 then Err(Thrown(TypeError, None))
    else
      var top := frames[|frames| - 1];
      if def.name !in top then Ok(frames[..|frames| - 1] + [top[def.name := [def]]])
      else if exists k :: 0 <= k < |top[def.name]| && Conflicts(top[def.name][k], def) then
        Err(Thrown(SyntaxError, None))
      else Ok(frames[..|frames| - 1] + [top[def.name := top[def.name] + [def]]])
  }

  /** How an overload's parameters compare with the argument values. */
  datatype MatchOutcome = Match | NoMatch | Crash

  /** The `every` test of `getFunction` from parameter `i` on: it stops at the first
      parameter whose annotation names another type than its argument's, and reading the
      type of a missing argument throws. */
  function MatchFrom(params: seq<Param>, args: seq<LiteralNode>, i: nat): MatchOutcome
    decreases |params| - i
  {
    if i >= |params| then Match
    else if i >= |args| then Crash
    else if params[i].paramType.name != args[i].TypeOf().Name() then NoMatch
    else MatchFrom(params, args, i + 1)
  }

  /** The overloads of one frame from the `k`-th on: the first that matches is chosen. */
  function Select(overloads: seq<FunctionDef>, args: seq<LiteralNode>, k: nat): Result<FunctionDef, Failure>
    decreases |overloads| - k
  {
    if k >= |overloads| then Err(Thrown(TypeError, None))
    else match MatchFrom(overloads[k].params, args, 0)
      case Match => Ok(overloads[k])
      case NoMatch => Select(overloads, args, k + 1)
      case Crash => Err(Thrown(TypeError, None))
  }

  /** `getFunction`: the innermost frame that has the name decides. */
  function Resolve(frames: seq<FunctionFrame>, name: string, args: seq<LiteralNode>): Result<FunctionDef, Failure>
  {
    match Holder(frames, name)
    case None => Err(Thrown(ReferenceError, None))
    case Some(i) => Select(frames[i][name], args, 0)
  }

  /** An overload matches exactly when there is an argument for each of its parameters
      and each argument has the type its parameter's annotation names; extra arguments are
      ignored. The test throws exactly when the arguments run out before a mismatch. */
  lemma {:induction false} MatchCharacterised(params: seq<Param>, args: seq<LiteralNode>, i: nat)
    requires i <= |params| && i <= |args|
    ensures MatchFrom(params, args, i) == Match
            <==> |params| <= |args| && forall j :: i <= j < |params| ==> params[j].paramType.name == args[j].TypeOf().Name()
    ensures MatchFrom(params, args, i) == Crash
            <==> |args| < |params| && forall j :: i <= j < |args| ==> params[j].paramType.name == args[j].TypeOf().Name()
    decreases |params| - i
  {
    if i < |params| && i < |args| && params[i].paramType.name == args[i].TypeOf().Name() {
      MatchCharacterised(params, args, i + 1);
    }
  }

  /** The overload chosen is the earliest of the frame whose test matches; every
      overload before it fails the test without throwing. */
  lemma {:induction false} SelectEarliest(overloads: seq<FunctionDef>, args: seq<LiteralNode>, k: nat)
    requires Select(overloads, args, k).Ok?
    ensures exists m ::
              && k <= m < |overloads| && overloads[m] == Select(overloads, args, k).value
              && MatchFrom(overloads[m].params, args, 0) == Match
              && forall j :: k <= j < m ==> MatchFrom(overloads[j].params, args, 0) == NoMatch
    decreases |overloads| - k
  {
    if MatchFrom(overloads[k].params, args, 0) == NoMatch {
      SelectEarliest(overloads, args, k + 1);
      var m :| k + 1 <= m < |overloads| && overloads[m] == Select(overloads, args, k + 1).value
        && MatchFrom(overloads[m].params, args, 0) == Match
        && forall j :: k + 1 <= j < m ==> MatchFrom(overloads[j].params, args, 0) == NoMatch;
      assert forall j :: k <= j < m ==> MatchFrom(overloads[j].params, args, 0) == NoMatch;
    }
  }

  /** When the test of the first overload throws, because the arguments run out while
      their types still match, the call throws TypeError however well a later overload
      would match. */
  lemma CrashHidesLaterOverloads(overloads: seq<FunctionDef>, args: seq<LiteralNode>)
    requires |overloads| > 0 && MatchFrom(overloads[0].params, args, 0) == Crash
    ensures Resolve([map["f" := overloads]], "f", args) == Err(Thrown(TypeError, None))
  {
  }

  /** A resolved overload has no more parameters than the call has arguments, so every
      parameter gets an argument when the call binds them. */
  lemma ResolveArity(frames: seq<FunctionFrame>, name: string, args: seq<LiteralNode>)
    ensures Resolve(frames, name, args).Ok? ==> |Resolve(frames, name, args).value.params| <= |args|
  {
    if Resolve(frames, name, args).Ok? {
      var overloads := frames[Holder(frames, name).value][name];
      SelectEarliest(overloads, args, 0);
      MatchCharacterised(Resolve(frames, name, args).value.params, args, 0);
    }
  }

  /** The first frame that has the name is final: frames further out are never consulted,
      and a name in no frame throws ReferenceError. */
  lemma {:induction false} ResolveIgnoresOuter(outer: seq<FunctionFrame>, inner: seq<FunctionFrame>, name: string, args: seq<LiteralNode>)
    requires exists j :: 0 <= j < |inner| && name in inner[j]
    ensures Resolve(outer + inner, name, args) == Resolve(inner, name, args)
    decreases |inner|
  {
    var all := outer + inner;
    if name in inner[|inner| - 1] {
      assert all[|all| - 1] == inner[|inner| - 1];
    } else {
      var j :| 0 <= j < |inner| && name in inner[j];
      assert all[..|all| - 1] == outer + inner[..|inner| - 1];
      assert inner[..|inner| - 1][j] == inner[j];
      ResolveIgnoresOuter(outer, inner[..|inner| - 1], name, args);
    }
  }

  lemma ResolveUnbound(frames: seq<FunctionFrame>, name: string, args: seq<LiteralNode>)
    ensures Resolve(frames, name, args) == Err(Thrown(ReferenceError, None))
            <==> forall j :: 0 <= j < |frames| ==> name !in frames[j]
  {
    match Holder(frames, name)
    case None =>
    case Some(i) =>
      SelectTypeError(frames[i][name], args, 0);
  }

  lemma {:induction false} SelectTypeError(overloads: seq<FunctionDef>, args: seq<LiteralNode>, k: nat)
    ensures Select(overloads, args, k).Err? ==> Select(overloads, args, k).error == Thrown(TypeError, None)
    decreases |overloads| - k
  {
    if k < |overloads| && MatchFrom(overloads[k].params, args, 0) == NoMatch {
      SelectTypeError(overloads, args, k + 1);
    }
  }

  /** A definition is refused with SyntaxError exactly when the current frame already
      holds a clashing overload of its name. Otherwise the definition is appended to the
      name's overloads in the current frame, and nothing else changes. */
  lemma DefineAppends(frames: seq<FunctionFrame>, def: FunctionDef)
    requires |frames| > 0
    ensures var top := frames[|frames| - 1];
      Define(frames, def) == Err(Thrown(SyntaxError, None))
      <==> def.name in top && exists k :: 0 <= k < |top[def.name]| && Conflicts(top[def.name][k], def)
    ensures var top := frames[|frames| - 1];
      Define(frames, def).Ok? ==>
      var after := Define(frames, def).value;
      && |after| == |frames| && after[..|after| - 1] == frames[..|frames| - 1]
      && after[|after| - 1] == top[def.name := (if def.name in top then top[def.name] else []) + [def]]
  {
    var top := frames[|frames| - 1];
    if def.name !in top {
      assert [] + [def] == [def];
    }
  }

  /** Annotations are compared as objects: two definitions whose parameters are written
      alike but come from different annotations do not clash. */
  lemma SeparateAnnotationsDoNotClash(a: FunctionDef, b: FunctionDef)
    requires |a.params| == |b.params| > 0
    requires a.params[0].paramType.name == b.params[0].paramType.name
    requires a.params[0].paramType.ref != b.params[0].paramType.ref
    ensures !Conflicts(a, b)
  {
  }

  /** The table: the frames, the innermost last. */
  class FunctionTable {
    var frames: seq<FunctionFrame>

    constructor()
      ensures frames == [map[]]
    {
      frames := [map[]];
    }

    method EnterScope(scope: string)
      modifies this
      ensures frames == old(frames) + [map[]]
    {
      frames := frames + [map[]];
    }

    method ExitScope()
      modifies this
      ensures frames == Pop(old(frames))
    {
      if |frames| > 0 {
        frames := frames[..|frames| - 1];
      }
    }

    /** Checks the name's overloads in the current frame one by one. */
    method AddFunction(def: FunctionDef) returns (r: Result<(), Failure>)
      modifies this
      ensures Define(old(frames), def) == (if r.Ok? then Ok(frames) else Err(r.error))
      ensures r.Err? ==> frames == old(frames)
    {
      if |frames| == 0 {
        return Err(Thrown(TypeError, None));
      }
      var top := frames[|frames| - 1];
      if def.name !in top {
        frames := frames[..|frames| - 1] + [top[def.name := [def]]];
        return Ok(());
      }
      var overloads := top[def.name];
      var k := 0;
      while k < |overloads|
        invariant 0 <= k <= |overloads|
        invariant forall j :: 0 <= j < k ==> !Conflicts(overloads[j], def)
      {
        if |overloads[k].params| == 0 && |def.params| == 0 {
          return Err(Thrown(SyntaxError, None));
        }
        if |overloads[k].params| == |def.params| && SameAnnotations(overloads[k].params, def.params) {
          return Err(Thrown(SyntaxError, None));
        }
        k := k + 1;
      }
      frames := frames[..|frames| - 1] + [top[def.name := overloads + [def]]];
      return Ok(());
    }

    /** Scans the frames innermost first, and the overloads of the first frame that has
        the name in definition order. */
    method GetFunction(name: string, args: seq<LiteralNode>) returns (r: Result<FunctionDef, Failure>)
      ensures r == Resolve(frames, name, args)
    {
      var i := |frames|;
      while i > 0
        invariant 0 <= i <= |frames|
        invariant Holder(frames, name) == Holder(frames[..i], name)
      {
        if name in frames[i - 1] {
          var overloads := frames[i - 1][name];
          var k := 0;
          while k < |overloads|
            invariant 0 <= k <= |overloads|
            invariant Select(overloads, args, 0) == Select(overloads, args, k)
          {
            var outcome := MatchFrom(overloads[k].params, args, 0);
            if outcome == Match {
              return Ok(overloads[k]);
            } else if outcome == Crash {
              return Err(Thrown(TypeError, None));
            }
            k := k + 1;
          }
          return Err(Thrown(TypeError, None));
        }
        assert frames[..i][..i - 1] == frames[..i - 1];
        i := i - 1;
      }
      return Err(Thrown(ReferenceError, None));
    }
  }

  /** `fn.params.every((param, i) => param.paramType === params[i].paramType)` for lists
      of one length. */
  function SameAnnotations(a: seq<Param>, b: seq<Param>): (r: bool)
    requires |a| == |b|
    ensures r <==> forall i :: 0 <= i < |a| ==> a[i].paramType == b[i].paramType
  {
    forall i :: 0 <= i < |a| ==> a[i].paramType == b[i].paramType
  }
}
