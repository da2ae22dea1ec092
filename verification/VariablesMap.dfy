/** The property map of an object: the variables by name, and the enumerable ones again in insertion
    order for for-in loops.
 */
module VariablesMap {

  type NameId = nat
  const STRING_PROTO: NameId := 1
  const PROTOTYPE: NameId := 2
  const STRING_AS3NS: nat := 3

  /** nsId identifies the namespace; 0 is the one with the empty name. */
  datatype Namespace = Namespace(nsId: nat, nsNameId: nat) {
    predicate HasEmptyName() { nsId == 0 }
    predicate HasBuiltinName() { nsNameId == STRING_AS3NS }
    predicate Is(other: Namespace) { nsId == other.nsId }
  }

  const DEFAULT_NAMESPACE := Namespace(0, 0)

  type TraitKinds = bv4
  const NO_CREATE_TRAIT: TraitKinds := 0
  const DECLARED_TRAIT: TraitKinds := 1
  const DYNAMIC_TRAIT: TraitKinds := 2
  const INSTANCE_TRAIT: TraitKinds := 5
  const CONSTANT_TRAIT: TraitKinds := 9

  /** hasEmptyNS and hasBuiltinNS are flags of their own in the source, set when the name is built. */
  datatype Multiname = Multiname(empty: bool, name: NameId, isInteger: bool, ns: seq<Namespace>,
                                 hasEmptyNS: bool, hasBuiltinNS: bool)

  class Variable {
    const nameStringID: NameId
    const ns: Namespace
    const kind: TraitKinds
    const nameIsInteger: bool
    var isenumerable: bool
    var isValidVar: bool
    var isValidSetter: bool

    constructor (name: NameId, ns: Namespace, kind: TraitKinds, isInteger: bool, enumerable: bool)
      ensures this.nameStringID == name && this.ns == ns && this.kind == kind
      ensures nameIsInteger == isInteger && isenumerable == enumerable
    {
      this.nameStringID, this.ns, this.kind := name, ns, kind;
      nameIsInteger, isenumerable := isInteger, enumerable;
      isValidVar, isValidSetter := false, false;
    }
  }

  predicate Accepted(v: Variable, traitKinds: TraitKinds) { v.kind & traitKinds != 0 }

  /** What a lookup for reading accepts as a namespace: any when the name has none, those of the name,
      and the empty and built-in ones as its flags say. */
  predicate ReadMatch(v: Variable, m: Multiname) {
    m.ns == [] || (exists n :: n in m.ns && v.ns.Is(n))
    || (m.hasEmptyNS && v.ns.HasEmptyName()) || (m.hasBuiltinNS && v.ns.HasBuiltinName())
  }

  /** What a lookup for writing accepts: the empty namespace when the name has none, else its own. */
  predicate WriteMatch(v: Variable, m: Multiname) {
    if m.ns == [] then v.ns.HasEmptyName() else exists n :: n in m.ns && v.ns.Is(n)
  }

  /** One of the first k namespaces of the name was the variable's. */
  predicate TriedMatch(v: Variable, m: Multiname, k: nat) {
    exists l :: 0 <= l < k && l < |m.ns| && v.ns.Is(m.ns[l])
  }

  predicate Settable(v: Variable)
    reads v
  {
    v.isValidVar || v.isValidSetter
  }

  /** A match at which the search for something to write to ends. */
  predicate Decides(v: Variable, m: Multiname, traitKinds: TraitKinds)
    reads v
  {
    WriteMatch(v, m) && (!Accepted(v, traitKinds) || Settable(v))
  }

  predicate FirstRead(group: seq<Variable>, m: Multiname, i: nat) {
    i < |group| && ReadMatch(group[i], m) && forall j :: 0 <= j < i ==> !ReadMatch(group[j], m)
  }

  predicate FirstWrite(group: seq<Variable>, m: Multiname, i: nat) {
    i < |group| && WriteMatch(group[i], m) && forall j :: 0 <= j < i ==> !WriteMatch(group[j], m)
  }

  predicate FirstIn(group: seq<Variable>, ns: Namespace, i: nat) {
    i < |group| && group[i].ns.Is(ns) && forall j :: 0 <= j < i ==> !group[j].ns.Is(ns)
  }

  predicate FirstDeciding(group: seq<Variable>, m: Multiname, traitKinds: TraitKinds, i: nat)
    reads group
  {
    i < |group| && Decides(group[i], m, traitKinds) && forall j :: 0 <= j < i ==> !Decides(group[j], m, traitKinds)
  }

  /** `r` is the last variable of `group` that the name matches. */
  ghost predicate IsLastMatch(group: seq<Variable>, m: Multiname, r: Variable?) {
    if r == null then forall v :: v in group ==> !WriteMatch(v, m)
    else exists i: nat :: LastWriteAt(group, m, i) && group[i] == r
  }

  predicate LastWriteAt(group: seq<Variable>, m: Multiname, i: nat) {
    i < |group| && WriteMatch(group[i], m) && forall j :: i < j < |group| ==> !WriteMatch(group[j], m)
  }

  /** Names and kinds that a for-in loop never sees. */
  predicate MayEnumerate(name: NameId, kind: TraitKinds) {
    name != STRING_PROTO && name != PROTOTYPE && kind != CONSTANT_TRAIT && kind != DECLARED_TRAIT
  }

  /** A dynamic variable is created in the default namespace, whatever the name's are. */
  function CreatedIn(m: Multiname, createKind: TraitKinds): Namespace
    requires createKind == DYNAMIC_TRAIT || m.ns != []
  {
    if createKind == DYNAMIC_TRAIT then DEFAULT_NAMESPACE else m.ns[0]
  }

  predicate IsKind(kind: TraitKinds) {
    kind == DECLARED_TRAIT || kind == DYNAMIC_TRAIT || kind == INSTANCE_TRAIT || kind == CONSTANT_TRAIT
  }

  /** A lookup for dynamic variables accepts those, one for any other kind all but those, one for both all,
      and one for none nothing. */
  lemma AcceptedKinds(v: Variable)
    requires IsKind(v.kind)
    ensures Accepted(v, DYNAMIC_TRAIT) <==> v.kind == DYNAMIC_TRAIT
    ensures Accepted(v, DECLARED_TRAIT) <==> v.kind != DYNAMIC_TRAIT
    ensures Accepted(v, INSTANCE_TRAIT) <==> v.kind != DYNAMIC_TRAIT
    ensures Accepted(v, CONSTANT_TRAIT) <==> v.kind != DYNAMIC_TRAIT
    ensures Accepted(v, DYNAMIC_TRAIT | DECLARED_TRAIT) && !Accepted(v, NO_CREATE_TRAIT)
  {
  }

  /** A for-in loop sees dynamic and instance variables. */
  lemma EnumerableKinds(name: NameId, kind: TraitKinds)
    requires IsKind(kind)
    ensures MayEnumerate(name, kind) <==>
      (kind == DYNAMIC_TRAIT || kind == INSTANCE_TRAIT) && name !in {STRING_PROTO, PROTOTYPE}
  {
  }

  /** A name without namespaces reads everything but writes only to the empty namespace; one with namespaces
      reads and writes in these, and reads in the empty and the built-in one as well if flagged so. */
  lemma MatchesByNamespace(v: Variable, m: Multiname)
    ensures m.ns == [] ==> ReadMatch(v, m) && (WriteMatch(v, m) <==> v.ns.nsId == 0)
    ensures m.ns != [] ==> (WriteMatch(v, m) <==> v.ns.nsId in Ids(m.ns))
    ensures m.ns != [] ==>
      (ReadMatch(v, m) <==> v.ns.nsId in Ids(m.ns) || (m.hasEmptyNS && v.ns.nsId == 0)
                            || (m.hasBuiltinNS && v.ns.nsNameId == STRING_AS3NS))
  {
  }

  function Ids(ns: seq<Namespace>): set<nat> { set n | n in ns :: n.nsId }

  function Nulled(vars: seq<Variable?>, v: Variable): (r: seq<Variable?>)
    ensures |r| == |vars| && forall i :: 0 <= i < |vars| ==> r[i] == if vars[i] == v then null else vars[i]
  {
    seq(|vars|, i requires 0 <= i < |vars| => if vars[i] == v then null else vars[i])
  }

  /** A lookup that creates finds the new variable the next time if and only if the variable is not a
      dynamic one or the name accepts the empty namespace. Otherwise the next lookup creates again. */
  lemma CreatedIsFound(group: seq<Variable>, m: Multiname, createKind: TraitKinds, v: Variable, at: nat)
    requires createKind == DYNAMIC_TRAIT || |m.ns| == 1
    requires forall u :: u in group ==> !WriteMatch(u, m)
    requires at <= |group| && v.ns == CreatedIn(m, createKind)
    ensures var after := group[..at] + [v] + group[at..];
      && (FirstWrite(after, m, at) <==> createKind != DYNAMIC_TRAIT || m.ns == [] || exists n :: n in m.ns && n.nsId == 0)
      && (!FirstWrite(after, m, at) ==> forall u :: u in after ==> !WriteMatch(u, m))
  {
    var after := group[..at] + [v] + group[at..];
    assert after[at] == v;
    assert createKind != DYNAMIC_TRAIT ==> v.ns in m.ns;
    assert forall j :: 0 <= j < at ==> after[j] == group[j];
    forall u | u in after && u != v ensures u in group {
      var j :| 0 <= j < |after| && after[j] == u;
      assert u == group[if j < at then j else j - 1];
    }
  }

  /** One more variable: it is the last match, or the last match stays what it was. */
  lemma LastMatchExtends(group: seq<Variable>, m: Multiname, r: Variable?, i: nat)
    requires i < |group|
    requires if WriteMatch(group[i], m) then r == group[i] else IsLastMatch(group[..i], m, r)
    ensures IsLastMatch(group[..i + 1], m, r)
  {
    if WriteMatch(group[i], m) {
      assert LastWriteAt(group[..i + 1], m, i);
    } else if r == null {
      assert forall v :: v in group[..i + 1] ==> v in group[..i] || v == group[i];
    } else {
      var k: nat :| LastWriteAt(group[..i], m, k) && group[..i][k] == r;
      assert LastWriteAt(group[..i + 1], m, k);
    }
  }

  type VariableMap = map<NameId, seq<Variable>>

  function GroupIn(variables: VariableMap, name: NameId): seq<Variable> {
    if name in variables then variables[name] else []
  }

  /** A group holds the live variables of one name, each once. */
  ghost predicate GroupOk(group: seq<Variable>, live: set<Variable>, name: NameId) {
    && (forall i :: 0 <= i < |group| ==> group[i] in live && group[i].nameStringID == name)
    && (forall v :: v in live && v.nameStringID == name ==> v in group)
    && (forall i, j :: 0 <= i < j < |group| ==> group[i] != group[j])
  }

  ghost predicate Grouped(variables: VariableMap, live: set<Variable>) {
    forall n: NameId :: GroupOk(GroupIn(variables, n), live, n)
  }

  lemma InsertOk(was: seq<Variable>, live: set<Variable>, v: Variable, group: seq<Variable>, at: nat)
    requires GroupOk(was, live, v.nameStringID) && v !in live && at <= |was| && group == was[..at] + [v] + was[at..]
    ensures GroupOk(group, live + {v}, v.nameStringID)
  {
    assert group[at] == v;
    assert forall i :: 0 <= i < |group| && i != at ==> group[i] == was[if i < at then i else i - 1];
    forall u | u in live && u.nameStringID == v.nameStringID ensures u in group {
      var i :| 0 <= i < |was| && was[i] == u;
      assert group[if i < at then i else i + 1] == u;
    }
  }

  lemma EraseOk(was: seq<Variable>, live: set<Variable>, name: NameId, group: seq<Variable>, at: nat)
    requires GroupOk(was, live, name) && at < |was| && group == was[..at] + was[at + 1..]
    ensures GroupOk(group, live - {was[at]}, name)
  {
    assert forall i :: 0 <= i < |group| ==> group[i] == was[if i < at then i else i + 1];
    forall u | u in live - {was[at]} && u.nameStringID == name ensures u in group {
      var i :| 0 <= i < |was| && was[i] == u;
      assert group[if i < at then i else i - 1] == u;
    }
  }

  /** Changing one group and the variables of its name keeps the other groups. */
  lemma OthersOk(variables: VariableMap, live: set<Variable>, name: NameId, group: seq<Variable>, after: set<Variable>)
    requires Grouped(variables, live) && GroupOk(group, after, name)
    requires forall u: Variable :: u in live + after && u.nameStringID != name ==> (u in live <==> u in after)
    ensures Grouped(variables[name := group], after)
  {
    var next := variables[name := group];
    forall n: NameId {:trigger GroupIn(next, n)} ensures GroupOk(GroupIn(next, n), after, n) {
      assert GroupOk(GroupIn(variables, n), live, n);
      if n != name {
        assert GroupIn(next, n) == GroupIn(variables, n);
      }
    }
  }

  class VariablesMap {
    /** The variables of each name, in the order in which the multimap iterates over them. */
    var variables: map<NameId, seq<Variable>>
    var dynamicVars: seq<Variable?>
    ghost var live: set<Variable>

    constructor ()
      ensures Valid() && live == {} && dynamicVars == []
    {
      variables, dynamicVars, live := map[], [], {};
    }

    /** The non-null entries of dynamicVars are distinct and are exactly the live enumerable variables. */
    ghost predicate Listed()
      reads this, live
    {
      && (forall i, j :: 0 <= i < j < |dynamicVars| && dynamicVars[i] != null ==> dynamicVars[i] != dynamicVars[j])
      && (forall v :: v in live && v.isenumerable ==> v in dynamicVars)
      && (forall i :: 0 <= i < |dynamicVars| && dynamicVars[i] != null ==> dynamicVars[i] in live && dynamicVars[i].isenumerable)
    }

    ghost predicate Valid()
      reads this, live
    {
      Grouped(variables, live) && Listed()
    }

    function Group(name: NameId): seq<Variable>
      reads this
    {
      GroupIn(variables, name)
    }

    /** The lookup for getters: one loop over (variable, namespace) pairs. */
    method FindObjVarConst(m: Multiname, traitKinds: TraitKinds) returns (r: Variable?)
      ensures m.empty || (forall v :: v in Group(m.name) ==> !ReadMatch(v, m)) ==> r == null
      ensures forall i: nat :: !m.empty && FirstRead(Group(m.name), m, i) ==>
        r == if Accepted(Group(m.name)[i], traitKinds) then Group(m.name)[i] else null
    {
      if m.empty { return null; }
      var group := Group(m.name);
      var i, k := 0, 0;
      while i < |group|
        invariant 0 <= i <= |group| && 0 <= k <= |m.ns| && (m.ns != [] ==> k < |m.ns|)
        invariant forall j :: 0 <= j < i ==> !ReadMatch(group[j], m)
        invariant i < |group| ==> forall l :: 0 <= l < k ==> !group[i].ns.Is(m.ns[l])
        decreases |group| - i, |m.ns| - k
      {
        var ns := group[i].ns;
        if m.ns == [] || ns.Is(m.ns[k]) || (m.hasEmptyNS && ns.HasEmptyName()) || (m.hasBuiltinNS && ns.HasBuiltinName()) {
          assert ReadMatch(group[i], m) && FirstRead(group, m, i);
          return if Accepted(group[i], traitKinds) then group[i] else null;
        }
        k := k + 1;
        if k == |m.ns| {
          k := 0;
          i := i + 1;
        }
      }
      return null;
    }

    /** The lookup for assignment: an accepted match that cannot be written to does not end it. */
    method FindVarOrSetter(m: Multiname, traitKinds: TraitKinds) returns (r: Variable?)
      ensures (forall v :: v in Group(m.name) ==> !Decides(v, m, traitKinds)) ==> IsLastMatch(Group(m.name), m, r)
      ensures forall i: nat :: FirstDeciding(Group(m.name), m, traitKinds, i) && Accepted(Group(m.name)[i], traitKinds) ==>
        r == Group(m.name)[i]
      ensures forall i: nat :: FirstDeciding(Group(m.name), m, traitKinds, i) && !Accepted(Group(m.name)[i], traitKinds) ==>
        IsLastMatch(Group(m.name)[..i], m, r)
    {
      var group := Group(m.name);
      var i, k := 0, 0;
      r := null;
      while i < |group|
        invariant 0 <= i <= |group| && 0 <= k <= |m.ns| && (m.ns != [] ==> k < |m.ns|)
        invariant forall j :: 0 <= j < i ==> !Decides(group[j], m, traitKinds)
        invariant if i < |group| && TriedMatch(group[i], m, k) then r == group[i] && !Decides(group[i], m, traitKinds)
                  else IsLastMatch(group[..i], m, r)
        decreases |group| - i, |m.ns| - k
      {
        var ns := group[i].ns;
        if (m.ns == [] && ns.HasEmptyName()) || (m.ns != [] && ns.Is(m.ns[k])) {
          assert WriteMatch(group[i], m);
          if !Accepted(group[i], traitKinds) {
            assert FirstDeciding(group, m, traitKinds, i);
            return r;
          }
          r := group[i];
          if r.isValidVar || r.isValidSetter {
            assert FirstDeciding(group, m, traitKinds, i);
            return r;
          }
        }
        if m.ns == [] || k + 1 == |m.ns| {
          LastMatchExtends(group, m, r, i);
          k := 0;
          i := i + 1;
        } else {
          k := k + 1;
        }
      }
      assert group[..i] == group;
    }

    /** The lookup that may create. */
    method FindObjVar(m: Multiname, createKind: TraitKinds, traitKinds: TraitKinds) returns (r: Variable?)
      requires Valid()
      requires createKind == NO_CREATE_TRAIT || createKind == DYNAMIC_TRAIT || |m.ns| == 1
      modifies this
      ensures Valid() && live == old(live) + (if r != null && r !in old(live) then {r} else {})
      ensures forall i: nat :: old(FirstWrite(Group(m.name), m, i)) ==>
        Unchanged() && r == if Accepted(old(Group(m.name))[i], traitKinds) then old(Group(m.name))[i] else null
      ensures (forall v :: v in old(Group(m.name)) ==> !WriteMatch(v, m)) ==>
        if createKind == NO_CREATE_TRAIT then r == null && Unchanged()
        else r != null && Inserted(r, m.name, true, false) && r.kind == createKind && r.ns == CreatedIn(m, createKind)
             && r.nameIsInteger == m.isInteger
    {
      var group := Group(m.name);
      var i, k := 0, 0;
      while i < |group|
        invariant 0 <= i <= |group| && 0 <= k <= |m.ns| && (m.ns != [] ==> k < |m.ns|)
        invariant forall j :: 0 <= j < i ==> !WriteMatch(group[j], m)
        invariant i < |group| ==> !TriedMatch(group[i], m, k)
        decreases |group| - i, |m.ns| - k
      {
        var ns := group[i].ns;
        if (m.ns == [] && ns.HasEmptyName()) || (m.ns != [] && ns.Is(m.ns[k])) {
          assert WriteMatch(group[i], m) && FirstWrite(group, m, i);
          return if Accepted(group[i], traitKinds) then group[i] else null;
        }
        if m.ns == [] || k + 1 == |m.ns| {
          k := 0;
          i := i + 1;
        } else {
          k := k + 1;
        }
      }
      if createKind == NO_CREATE_TRAIT { return null; }
      r := Create(m.name, CreatedIn(m, createKind), createKind, m.isInteger, true, false);
    }

    /** The same by name and namespace. */
    method FindObjVarIn(name: NameId, ns: Namespace, createKind: TraitKinds, traitKinds: TraitKinds, isEnumerable: bool)
      returns (r: Variable?)
      requires Valid()
      modifies this
      ensures Valid() && live == old(live) + (if r != null && r !in old(live) then {r} else {})
      ensures forall i: nat :: old(FirstIn(Group(name), ns, i)) ==>
        Unchanged() && r == if Accepted(old(Group(name))[i], traitKinds) then old(Group(name))[i] else null
      ensures (forall v :: v in old(Group(name)) ==> !v.ns.Is(ns)) ==>
        if createKind == NO_CREATE_TRAIT then r == null && Unchanged()
        else r != null && Inserted(r, name, isEnumerable, false) && r.kind == createKind && r.ns == ns && !r.nameIsInteger
    {
      var group := Group(name);
      var i := 0;
      while i < |group|
        invariant 0 <= i <= |group| && forall j :: 0 <= j < i ==> !group[j].ns.Is(ns)
      {
        if group[i].ns.Is(ns) {
          assert FirstIn(group, ns, i);
          return if Accepted(group[i], traitKinds) then group[i] else null;
        }
        i := i + 1;
      }
      if createKind == NO_CREATE_TRAIT { return null; }
      r := Create(name, ns, createKind, false, isEnumerable, false);
    }

    twostate predicate Unchanged()
      reads this
    {
      variables == old(variables) && dynamicVars == old(dynamicVars) && live == old(live)
    }

    /** A new variable, somewhere among those of its name; last in dynamicVars, or first when prepended,
        if it is enumerable. */
    twostate predicate Inserted(new v: Variable, name: NameId, isEnumerable: bool, prepend: bool)
      reads this, v
    {
      && v.nameStringID == name && live == old(live) + {v} && v !in old(live)
      && v.isenumerable == (isEnumerable && MayEnumerate(name, v.kind))
      && dynamicVars == (if !v.isenumerable then old(dynamicVars)
                         else if prepend then [v] + old(dynamicVars) else old(dynamicVars) + [v])
      && (exists at :: 0 <= at <= |old(Group(name))| &&
                       Group(name) == old(Group(name))[..at] + [v] + old(Group(name))[at..])
      && (forall n :: n != name ==> Group(n) == old(Group(n)))
    }

    method Create(name: NameId, ns: Namespace, kind: TraitKinds, isInteger: bool, isEnumerable: bool, prepend: bool)
      returns (v: Variable)
      requires Valid()
      modifies this
      ensures Valid() && fresh(v) && Inserted(v, name, isEnumerable, prepend)
      ensures v.ns == ns && v.kind == kind && v.nameIsInteger == isInteger
    {
      v := new Variable(name, ns, kind, isInteger, isEnumerable);
      var group := Group(name);
      var at :| 0 <= at <= |group|;
      assert GroupOk(group, live, name);
      InsertOk(group, live, v, group[..at] + [v] + group[at..], at);
      OthersOk(variables, live, name, group[..at] + [v] + group[at..], live + {v});
      variables := variables[name := group[..at] + [v] + group[at..]];
      live := live + {v};
      InsertVar(v, prepend);
    }

    /** Adds a variable without looking for one of the name; it is settable at once. */
    method SetDynamicVarNoCheck(name: NameId, isInteger: bool, prepend: bool) returns (v: Variable)
      requires Valid()
      modifies this
      ensures Valid() && fresh(v) && Inserted(v, name, true, prepend)
      ensures v.ns == DEFAULT_NAMESPACE && v.kind == DYNAMIC_TRAIT && v.nameIsInteger == isInteger && v.isValidVar
    {
      v := Create(name, DEFAULT_NAMESPACE, DYNAMIC_TRAIT, isInteger, true, prepend);
      v.isValidVar := true;
    }

    method InsertVar(v: Variable, prepend: bool)
      modifies this`dynamicVars, v`isenumerable
      ensures v.isenumerable == (old(v.isenumerable) && MayEnumerate(v.nameStringID, v.kind))
      ensures dynamicVars == if !v.isenumerable then old(dynamicVars)
                             else if prepend then [v] + old(dynamicVars) else old(dynamicVars) + [v]
    {
      if v.isenumerable && !MayEnumerate(v.nameStringID, v.kind) {
        v.isenumerable := false;
      }
      if v.isenumerable {
        dynamicVars := if prepend then [v] + dynamicVars else dynamicVars + [v];
      }
    }

    /** The entry is nulled, not erased: the indexes of the others stay valid. */
    method RemoveVar(v: Variable)
      requires forall i, j :: 0 <= i < j < |dynamicVars| && dynamicVars[i] != null ==> dynamicVars[i] != dynamicVars[j]
      modifies this`dynamicVars
      ensures dynamicVars == if v.isenumerable then Nulled(old(dynamicVars), v) else old(dynamicVars)
    {
      if !v.isenumerable { return; }
      var i := 0;
      while i < |dynamicVars|
        invariant 0 <= i <= |dynamicVars| && dynamicVars == old(dynamicVars)
        invariant v !in dynamicVars[..i]
      {
        if dynamicVars[i] == v {
          dynamicVars := dynamicVars[i := null];
          return;
        }
        i := i + 1;
      }
    }

    /** The delete of a variable: the first match of the name's own namespaces goes, from both
        containers. The result is false where the original throws "Variable to kill not found". */
    method KillObjVar(m: Multiname) returns (killed: bool)
      requires Valid() && m.ns != []
      modifies this
      ensures Valid()
      ensures killed <==> exists v :: v in old(Group(m.name)) && WriteMatch(v, m)
      ensures !killed ==> Unchanged()
      ensures forall i: nat :: old(FirstWrite(Group(m.name), m, i)) ==> Erased(m.name, i)
    {
      var group := Group(m.name);
      var i, k := 0, 0;
      while i < |group|
        invariant 0 <= i <= |group| && 0 <= k < |m.ns|
        invariant forall j :: 0 <= j < i ==> !WriteMatch(group[j], m)
        invariant i < |group| ==> !TriedMatch(group[i], m, k)
        decreases |group| - i, |m.ns| - k
      {
        if group[i].ns.Is(m.ns[k]) {
          assert WriteMatch(group[i], m) && FirstWrite(group, m, i);
          Erase(m.name, i);
          return true;
        }
        if k + 1 == |m.ns| {
          k := 0;
          i := i + 1;
        } else {
          k := k + 1;
        }
      }
      return false;
    }

    /** The i-th variable of the name is gone from both containers; nothing else has changed. */
    twostate predicate Erased(name: NameId, i: nat)
      requires i < |old(Group(name))|
      reads this
    {
      && live == old(live) - {old(Group(name))[i]}
      && dynamicVars == Nulled(old(dynamicVars), old(Group(name))[i])
      && Group(name) == old(Group(name))[..i] + old(Group(name))[i + 1..]
      && (forall n :: n != name ==> Group(n) == old(Group(n)))
    }

    method Erase(name: NameId, i: nat)
      requires Valid() && i < |Group(name)|
      modifies this
      ensures Valid() && Erased(name, i)
    {
      var group := Group(name);
      assert GroupOk(group, live, name);
      EraseOk(group, live, name, group[..i] + group[i + 1..], i);
      OthersOk(variables, live, name, group[..i] + group[i + 1..], live - {group[i]});
      RemoveVar(group[i]);
      variables := variables[name := group[..i] + group[i + 1..]];
      live := live - {group[i]};
    }
  }
}
