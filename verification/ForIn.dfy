/** The for-in loop: a walk by index over the enumerable variables of an object and of its prototypes. */
module ForIn {
  import opened VariablesMap

  /** The index after the first live variable from cur on; 0 if there is none. */
  function Next(vars: seq<Variable?>, cur: nat): nat
    decreases |vars| - cur
  {
    if cur >= |vars| then 0 else if vars[cur] != null then cur + 1 else Next(vars, cur + 1)
  }

  lemma {:induction false} NextIsFirst(vars: seq<Variable?>, cur: nat)
    ensures var r := Next(vars, cur);
      && (r == 0 <==> forall i :: cur <= i < |vars| ==> vars[i] == null)
      && (r > 0 ==> cur < r <= |vars| && vars[r - 1] != null && forall i :: cur <= i < r - 1 ==> vars[i] == null)
    decreases |vars| - cur
  {
    if cur < |vars| && vars[cur] == null {
      NextIsFirst(vars, cur + 1);
    }
  }

  lemma {:induction false} NextOverChain(own: seq<Variable?>, inherited: seq<Variable?>, cur: nat)
    ensures Next(own + inherited, cur) ==
      if Next(own, cur) > 0 then Next(own, cur)
      else var r := Next(inherited, if cur < |own| then 0 else cur - |own|);
           if r > 0 then |own| + r else 0
    decreases |own| + |inherited| - cur
  {
    if cur < |own| + |inherited| && (own + inherited)[cur] == null {
      NextOverChain(own, inherited, cur + 1);
    }
  }

  class ScriptObject {
    const vars: VariablesMap
    /** getClass()->prototype->getObj() */
    const prototype: ScriptObject?
    ghost const depth: nat

    constructor (vars: VariablesMap, prototype: ScriptObject?)
      requires prototype != null ==> prototype.Valid()
      ensures Valid() && this.vars == vars && this.prototype == prototype
    {
      this.vars, this.prototype := vars, prototype;
      depth := if prototype == null then 0 else prototype.depth + 1;
    }

    predicate Inherits() {
      prototype != null && prototype != this
    }

    /** Chains of prototypes end, in an object without one or in one that is its own. */
    ghost predicate Valid()
      decreases depth
    {
      Inherits() ==> prototype.depth < depth && prototype.Valid()
    }

    ghost function Levels(): set<VariablesMap>
      requires Valid()
      decreases depth
    {
      {vars} + if Inherits() then prototype.Levels() else {}
    }

    /** The variables of the object, then those of its prototype, and so on. */
    ghost function Chain(): seq<Variable?>
      requires Valid()
      reads Levels()
      decreases depth
    {
      vars.dynamicVars + if Inherits() then prototype.Chain() else []
    }

    method NextNameIndex(curIndex: nat) returns (r: nat)
      requires Valid()
      ensures r == Next(Chain(), curIndex)
      decreases depth
    {
      var cur := curIndex;
      while cur < |vars.dynamicVars|
        invariant curIndex <= cur && (curIndex < |vars.dynamicVars| ==> cur <= |vars.dynamicVars|)
        invariant curIndex >= |vars.dynamicVars| ==> cur == curIndex
        invariant Next(vars.dynamicVars, curIndex) == Next(vars.dynamicVars, cur)
      {
        if vars.dynamicVars[cur] != null {
          NextOverChain(vars.dynamicVars, if Inherits() then prototype.Chain() else [], curIndex);
          return cur + 1;
        }
        cur := cur + 1;
      }
      NextOverChain(vars.dynamicVars, if Inherits() then prototype.Chain() else [], curIndex);
      if prototype == null { return 0; }
      if prototype != this {
        var res := prototype.NextNameIndex(cur - |vars.dynamicVars|);
        NextOverChain(vars.dynamicVars, prototype.Chain(), curIndex);
        if res > 0 { return res + |vars.dynamicVars|; }
      }
      return 0;
    }

    /** The original dereferences what it finds: the index must come from NextNameIndex. */
    method GetNameAt(i: nat) returns (name: NameId, nameIsInteger: bool)
      requires Valid() && i < |Chain()| && Chain()[i] != null
      ensures i < |Chain()| && Chain()[i] != null
      ensures name == Chain()[i].nameStringID && nameIsInteger == Chain()[i].nameIsInteger
      decreases depth
    {
      if i >= |vars.dynamicVars| && prototype != this {
        name, nameIsInteger := prototype.GetNameAt(i - |vars.dynamicVars|);
      } else {
        var v := vars.dynamicVars[i];
        name, nameIsInteger := v.nameStringID, v.nameIsInteger;
      }
    }
  }
}
