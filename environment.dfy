/** Variable scopes at run time: a chain of frames, each a name-to-value map with a link to
    the frame that encloses it. The chain of maps, innermost first, is `Frames()`; the
    functions `Innermost` and the lemmas at the end describe lookup and update on it. */
module Environments {
  import opened Wrappers
  import opened Tokens

  /** The error raised for a name bound in no frame. */
  datatype RuntimeError = RuntimeError(token: Token, message: string)

  function Undefined(name: Token): (e: RuntimeError)
    ensures e.token == name
  {
    RuntimeError(name, "Undefined variable '" + name.lexeme + "'.")
  }

  type Frame = map<string, Value>

  /** The index of the innermost frame that binds `n`, if any. */
  function Innermost(frames: seq<Frame>, n: string): (r: Option<nat>)
    ensures r.Some? ==> r.value < |frames| && n in frames[r.value]
    ensures r.Some? ==> forall j :: 0 <= j < r.value ==> n !in frames[j]
    ensures r.None? ==> forall j :: 0 <= j < |frames| ==> n !in frames[j]
  {
    if |frames| == 0 then None
    else if n in frames[0] then Some(0)
    else match Innermost(frames[1..], n)
      case None => None
      case Some(i) => Some(i + 1)
  }

  /** A name just defined in the innermost frame is found there, whatever outer frames bind. */
  lemma DefinedNameIsInnermost(frames: seq<Frame>, n: string, v: Value)
    requires |frames| > 0
    ensures Innermost(frames[0 := frames[0][n := v]], n) == Some(0)
  {
  }

  /** Updating the innermost binding of `n` keeps it the innermost one, with the new value. */
  lemma {:induction false} AssignedNameIsFound(frames: seq<Frame>, n: string, v: Value)
    requires Innermost(frames, n).Some?
    ensures var i := Innermost(frames, n).value;
            Innermost(frames[i := frames[i][n := v]], n) == Some(i)
  {
    var i := Innermost(frames, n).value;
    var after := frames[i := frames[i][n := v]];
    assert forall j :: 0 <= j < i ==> after[j] == frames[j];
    InnermostUnique(after, n, i);
  }

  /** `Innermost` is the one frame that binds `n` with no binding frame before it. */
  lemma {:induction false} InnermostUnique(frames: seq<Frame>, n: string, i: nat)
    requires i < |frames| && n in frames[i]
    requires forall j :: 0 <= j < i ==> n !in frames[j]
    ensures Innermost(frames, n) == Some(i)
  {
  }

  /** Behind a frame that does not bind `n`, the innermost binding is one frame further out. */
  lemma InnermostBeyond(v: Frame, frames: seq<Frame>, n: string)
    requires n !in v
    ensures Innermost([v] + frames, n)
         == if Innermost(frames, n).None? then None else Some(Innermost(frames, n).value + 1)
  {
    assert ([v] + frames)[1..] == frames;
  }

  lemma UpdateBeyond<T>(x: T, xs: seq<T>, i: nat, y: T)
    requires i < |xs|
    ensures [x] + xs[i := y] == ([x] + xs)[i + 1 := y]
  {
  }

  class Environment {
    const enclosing: Environment?
    var values: Frame
    /** Number of frames enclosing this one. */
    ghost const depth: nat
    /** This frame and every frame on its enclosing chain. */
    ghost const Repr: set<Environment>

    /** The enclosing chain is finite and acyclic, and `Repr` is exactly its frames. */
    ghost predicate Valid()
      decreases depth
    {
      this in Repr &&
      if enclosing == null then depth == 0 && Repr == {this}
      else (depth == enclosing.depth + 1 && this !in enclosing.Repr &&
            Repr == {this} + enclosing.Repr && enclosing.Valid())
    }

    /** The frame `d` links out: `this` for 0, then one `enclosing` step at a time. */
    ghost function AncestorAt(d: nat): (e: Environment)
      requires Valid() && d <= depth
      ensures e.Valid() && e in Repr && e.Repr <= Repr && e.depth == depth - d
      decreases d
    {
      if d == 0 then this else enclosing.AncestorAt(d - 1)
    }

    lemma {:induction false} AncestorStep(d: nat)
      requires Valid() && d < depth
      ensures AncestorAt(d).enclosing != null && AncestorAt(d + 1) == AncestorAt(d).enclosing
      decreases d
    {
      if d > 0 {
        enclosing.AncestorStep(d - 1);
      }
    }

    /** The maps of the chain, innermost first. */
    ghost function Frames(): (f: seq<Frame>)
      reads Repr
      requires Valid()
      ensures |f| == depth + 1
    {
      seq(depth + 1, i requires 0 <= i <= depth reads Repr => AncestorAt(i).values)
    }

    lemma FramesUnfold()
      requires Valid() && enclosing != null
      ensures Frames() == [values] + enclosing.Frames()
    {
      forall i | 0 < i <= depth
        ensures Frames()[i] == enclosing.Frames()[i - 1]
      {
        assert AncestorAt(i) == enclosing.AncestorAt(i - 1);
      }
    }

    /** A new frame, with no bindings, inside `enclosing` (or a global frame for null). */
    constructor(enclosing: Environment?)
      requires enclosing != null ==> enclosing.Valid()
      ensures Valid() && this.enclosing == enclosing && values == map[]
      ensures enclosing == null ==> Frames() == [map[]]
      ensures enclosing != null ==> Frames() == [map[]] + enclosing.Frames()
    {
      this.enclosing := enclosing;
      values := map[];
      depth := if enclosing == null then 0 else enclosing.depth + 1;
      Repr := if enclosing == null then {this} else {this} + enclosing.Repr;
      new;
      if enclosing != null {
        FramesUnfold();
      }
    }

    /** The global frame: no enclosing frame and no bindings. */
    constructor Global()
      ensures Valid() && enclosing == null && values == map[] && Frames() == [map[]]
    {
      enclosing := null;
      values := map[];
      depth := 0;
      Repr := {this};
    }

    /** Binds `name` in this frame, replacing a binding it already has. */
    method Define(name: string, value: Value)
      requires Valid()
      modifies this`values
      ensures values == old(values)[name := value]
      ensures Frames() == old(Frames())[0 := old(Frames())[0][name := value]]
    {
      values := values[name := value];
    }

    /** The value bound to the name in the innermost frame binding it, or the error. */
    function Get(name: Token): (r: Result<Value, RuntimeError>)
      reads Repr
      requires Valid()
      ensures match Innermost(Frames(), name.lexeme)
              case Some(i) => r == Ok(Frames()[i][name.lexeme])
              case None => r == Err(Undefined(name))
      decreases depth
    {
      if name.lexeme in values then Ok(values[name.lexeme])
      else if enclosing != null then
        FramesUnfold();
        enclosing.Get(name)
      else Err(Undefined(name))
    }

    /** Rebinds the name in the innermost frame binding it; adds no binding. */
    method Assign(name: Token, value: Value) returns (r: Result<(), RuntimeError>)
      requires Valid()
      modifies Repr
      ensures match Innermost(old(Frames()), name.lexeme)
              case Some(i) => r == Ok(()) && Frames() == old(Frames())[i := old(Frames())[i][name.lexeme := value]]
              case None => r == Err(Undefined(name)) && Frames() == old(Frames())
      decreases depth
    {
      if name.lexeme in values {
        values := values[name.lexeme := value];
        r := Ok(());
      } else if enclosing != null {
        FramesUnfold();
        ghost var outer := enclosing.Frames();
        InnermostBeyond(values, outer, name.lexeme);
        r := enclosing.Assign(name, value);
        FramesUnfold();
        if Innermost(outer, name.lexeme).Some? {
          var i := Innermost(outer, name.lexeme).value;
          UpdateBeyond(values, outer, i, outer[i][name.lexeme := value]);
        }
      } else {
        r := Err(Undefined(name));
      }
    }

    /** Follows `distance` enclosing links. */
    method Ancestor(distance: nat) returns (e: Environment)
      requires Valid() && distance <= depth
      ensures e == AncestorAt(distance)
    {
      e := this;
      for i := 0 to distance
        invariant e == AncestorAt(i)
      {
        AncestorStep(i);
        e := e.enclosing;
      }
    }

    /** The binding of `name` in the frame `distance` links out, or null when it has none. */
    method GetAt(distance: nat, name: string) returns (v: Value)
      requires Valid() && distance <= depth
      ensures name in Frames()[distance] ==> v == Frames()[distance][name]
      ensures name !in Frames()[distance] ==> v == Null
    {
      var e := Ancestor(distance);
      v := if name in e.values then e.values[name] else Null;
    }

    /** Binds `name` in the frame `distance` links out, adding the binding if it is absent. */
    method AssignAt(distance: nat, name: Token, value: Value)
      requires Valid() && distance <= depth
      modifies Repr
      ensures Frames() == old(Frames())[distance := old(Frames())[distance][name.lexeme := value]]
    {
      var e := Ancestor(distance);
      e.values := e.values[name.lexeme := value];
    }
  }
}
